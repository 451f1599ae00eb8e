/** `RemoteDispatcher`: receives framed messages `prefix name body` from a
    0MQ proxy, filters them by prefix, deserializes the body and schedules
    `process(DocumentNames[name], doc)` on the event loop. The socket is an
    inbox of received byte strings; the event loop's `call_soon` queue is
    the `scheduled` log; the deserializer is a partial function passed in. */
module RemoteDispatch {
  import opened PyCore

  const Space: byte := 32

  // ---------------------------------------------------------------------
  // Construction: prefix validation and the address
  // ---------------------------------------------------------------------

  /** The `prefix` argument: `str` is refused, only `bytes` is accepted. */
  datatype PrefixArg = TextPrefix(text: string) | BytesPrefix(bytes: seq<byte>)

  /** The port of an address tuple, passed through `int()`. */
  datatype PortArg = PortNumber(number: int) | PortText(text: string)

  /** The `address` argument: `'host:port'` or `(host, port)`. */
  datatype AddressArg = AddressText(text: string) | AddressPair(host: string, port: PortArg)

  datatype Settings = Settings(prefix: seq<byte>, host: string, port: int)

  /** `int(port)`: an int is kept, text must spell a decimal integer. */
  function PortValue(port: PortArg): (r: Result<int>)
    ensures port.PortNumber? ==> r == Ok(port.number)
    ensures port.PortText? ==> (r.Ok? <==> ParseInt(port.text).Some?)
    ensures port.PortText? && r.Ok? ==> Some(r.value) == ParseInt(port.text)
    ensures r.Err? ==> r.error == ValueError
  {
    match port
    case PortNumber(n) => Ok(n)
    case PortText(t) => if ParseInt(t).Some? then Ok(ParseInt(t).value) else Err(ValueError)
  }

  /** `address.split(':', maxsplit=1)` then `(address[0], int(address[1]))`:
      a text without a colon has no second element (IndexError); a port
      that is not an integer raises ValueError. */
  function SplitAddress(address: AddressArg): (r: Result<(string, int)>)
    ensures address.AddressText? && ':' !in address.text ==> r == Err(IndexError)
    ensures r.Ok? && address.AddressText? ==>
      var host := r.value.0;
      && ':' !in host && |host| < |address.text|
      && address.text == host + ":" + address.text[|host| + 1..]
      && ParseInt(address.text[|host| + 1..]) == Some(r.value.1)
    ensures address.AddressText? && ':' in address.text ==>
      var i := IndexOf(address.text, ':');
      && (r.Err? <==> ParseInt(address.text[i + 1..]).None?)
      && (r.Err? ==> r.error == ValueError)
    ensures address.AddressPair? ==>
      && (r.Ok? <==> PortValue(address.port).Ok?)
      && (r.Ok? ==> r.value == (address.host, PortValue(address.port).value))
      && (r.Err? ==> r.error == ValueError)
  {
    match address
    case AddressText(text) =>
      if ':' !in text then Err(IndexError)
      else
        var i := IndexOf(text, ':');
        assert text[..i + 1] == text[..i] + ":";
        (match PortValue(PortText(text[i + 1..]))
         case Err(e) => Err(e)
         case Ok(port) => Ok((text[..i], port)))
    case AddressPair(host, port) =>
      match PortValue(port)
      case Err(e) => Err(e)
      case Ok(n) => Ok((host, n))
  }

  /** `'host:port'` splits back into the host and the port. */
  lemma AddressRoundTrip(host: string, port: nat)
    requires ':' !in host
    ensures SplitAddress(AddressText(host + ":" + ShowNat(port))) == Ok((host, port))
  {
    var text := host + ":" + ShowNat(port);
    assert text == host + [':'] + ShowNat(port);
    IndexOfAfter(host, ':', ShowNat(port));
    assert text[..|host|] == host;
    assert text[|host| + 1..] == ShowNat(port);
    ParseIntShowNat(port);
  }

  /** A port that is not an integer is refused with ValueError. */
  lemma NonIntegerPortRejected(host: string, port: string)
    requires ':' !in host && ParseInt(port).None?
    ensures SplitAddress(AddressText(host + ":" + port)) == Err(ValueError)
  {
    var text := host + ":" + port;
    assert text == host + [':'] + port;
    IndexOfAfter(host, ':', port);
    assert text[|host| + 1..] == port;
  }

  /** The checks of `__init__` in order: a `str` prefix, then a prefix
      holding a space, then the address. */
  function Configure(address: AddressArg, prefix: PrefixArg): (r: Result<Settings>)
    ensures prefix.TextPrefix? ==> r == Err(ValueError)
    ensures prefix.BytesPrefix? && Space in prefix.bytes ==> r == Err(ValueError)
    ensures r.Ok? <==> prefix.BytesPrefix? && Space !in prefix.bytes && SplitAddress(address).Ok?
    ensures r.Ok? ==> (Space !in r.value.prefix && r.value.prefix == prefix.bytes
                       && (r.value.host, r.value.port) == SplitAddress(address).value)
  {
    if prefix.TextPrefix? then Err(ValueError)
    else if Space in prefix.bytes then Err(ValueError)
    else
      match SplitAddress(address)
      case Err(e) => Err(e)
      case Ok(a) => Ok(Settings(prefix.bytes, a.0, a.1))
  }

  // ---------------------------------------------------------------------
  // Frames
  // ---------------------------------------------------------------------

  datatype Frame = Frame(prefix: seq<byte>, name: seq<byte>, body: seq<byte>)

  /** The wire form the publishing side sends: `prefix + b' ' + name + b' ' + body`. */
  function Encode(f: Frame): (m: seq<byte>)
    ensures |m| == |f.prefix| + 1 + |f.name| + 1 + |f.body|
    ensures m[..|f.prefix|] == f.prefix && m[|f.prefix|] == Space
    ensures m[|f.prefix| + 1..|f.prefix| + 1 + |f.name|] == f.name && m[|f.prefix| + 1 + |f.name|] == Space
    ensures m[|f.prefix| + |f.name| + 2..] == f.body
  {
    f.prefix + [Space] + (f.name + [Space] + f.body)
  }

  /** `prefix, name, doc = message.split(b' ', 2)`: cut at the first two
      spaces; the prefix and the name come back without spaces and the
      body keeps whatever spaces follow. */
  function SplitFrame(message: seq<byte>): (r: Option<Frame>)
    ensures r.Some? ==> Encode(r.value) == message
    ensures r.Some? ==> Space !in r.value.prefix && Space !in r.value.name
  {
    match Partition(message, Space)
    case None => None
    case Some((prefix, rest)) =>
      match Partition(rest, Space)
      case None => None
      case Some((name, body)) => Some(Frame(prefix, name, body))
  }

  /** A message with fewer than two spaces cannot be unpacked into three
      names, and one with two or more always can. */
  lemma SplitFrameNeedsTwoSpaces(message: seq<byte>)
    ensures SplitFrame(message).None? <==> Count(message, Space) < 2
  {
    CountAbsent(message, Space);
    if Space in message {
      PartitionCount(message, Space);
      CountAbsent(Partition(message, Space).value.1, Space);
    }
  }

  /** Framing round trip: a prefix and a name without spaces come back
      exactly, and the body comes back whole even when it holds spaces. */
  lemma FrameRoundTrip(f: Frame)
    requires Space !in f.prefix && Space !in f.name
    ensures SplitFrame(Encode(f)) == Some(f)
  {
    PartitionAfter(f.prefix, Space, f.name + [Space] + f.body);
    PartitionAfter(f.name, Space, f.body);
  }

  // ---------------------------------------------------------------------
  // Document names and UTF-8
  // ---------------------------------------------------------------------

  /** The members of the `DocumentNames` enum. */
  datatype DocumentName =
    | Stop | Start | Descriptor | Event | Datum | Resource
    | EventPage | DatumPage | BulkDatum | BulkEvents

  function NameText(n: DocumentName): string
  {
    match n
    case Stop => "stop"
    case Start => "start"
    case Descriptor => "descriptor"
    case Event => "event"
    case Datum => "datum"
    case Resource => "resource"
    case EventPage => "event_page"
    case DatumPage => "datum_page"
    case BulkDatum => "bulk_datum"
    case BulkEvents => "bulk_events"
  }

  function NameBytes(n: DocumentName): seq<byte>
  {
    AsciiBytes(NameText(n))
  }

  /** `DocumentNames[name]` on the decoded name: the member whose name it
      is, or a KeyError. */
  function LookupName(name: seq<byte>): (r: Option<DocumentName>)
    ensures r.Some? ==> NameBytes(r.value) == name
    ensures r.None? ==> forall n: DocumentName :: NameBytes(n) != name
  {
    if name == NameBytes(Stop) then Some(Stop)
    else if name == NameBytes(Start) then Some(Start)
    else if name == NameBytes(Descriptor) then Some(Descriptor)
    else if name == NameBytes(Event) then Some(Event)
    else if name == NameBytes(Datum) then Some(Datum)
    else if name == NameBytes(Resource) then Some(Resource)
    else if name == NameBytes(EventPage) then Some(EventPage)
    else if name == NameBytes(DatumPage) then Some(DatumPage)
    else if name == NameBytes(BulkDatum) then Some(BulkDatum)
    else if name == NameBytes(BulkEvents) then Some(BulkEvents)
    else None
  }

  predicate IsContinuation(b: byte)
  {
    0x80 <= b <= 0xBF
  }

  /** Whether `bytes.decode()` (strict UTF-8) succeeds: the well-formed byte
      sequences of the Unicode standard, section 3.9, table 3-7. */
  predicate WellFormedUtf8(s: seq<byte>)
    decreases |s|
  {
    if s == [] then true
    else if s[0] <= 0x7F then WellFormedUtf8(s[1..])
    else if 0xC2 <= s[0] <= 0xDF then
      |s| >= 2 && IsContinuation(s[1]) && WellFormedUtf8(s[2..])
    else if 0xE0 <= s[0] <= 0xEF then
      && |s| >= 3
      && (if s[0] == 0xE0 then 0xA0 <= s[1] <= 0xBF
          else if s[0] == 0xED then 0x80 <= s[1] <= 0x9F
          else IsContinuation(s[1]))
      && IsContinuation(s[2])
      && WellFormedUtf8(s[3..])
    else if 0xF0 <= s[0] <= 0xF4 then
      && |s| >= 4
      && (if s[0] == 0xF0 then 0x90 <= s[1] <= 0xBF
          else if s[0] == 0xF4 then 0x80 <= s[1] <= 0x8F
          else IsContinuation(s[1]))
      && IsContinuation(s[2]) && IsContinuation(s[3])
      && WellFormedUtf8(s[4..])
    else false
  }

  lemma {:induction false} AsciiIsUtf8(s: seq<byte>)
    requires forall k :: 0 <= k < |s| ==> s[k] <= 0x7F
    ensures WellFormedUtf8(s)
  {
    if s != [] {
      AsciiIsUtf8(s[1..]);
    }
  }

  /** Lower-case letters and underscores: the characters of every name. */
  predicate NameChars(t: string)
  {
    forall k :: 0 <= k < |t| ==> 'a' <= t[k] <= 'z' || t[k] == '_'
  }

  lemma NameTextChars(n: DocumentName)
    ensures NameChars(NameText(n))
  {
    match n {
      case Stop => assert NameChars("stop");
      case Start => assert NameChars("start");
      case Descriptor => assert NameChars("descriptor");
      case Event => assert NameChars("event");
      case Datum => assert NameChars("datum");
      case Resource => assert NameChars("resource");
      case EventPage => assert NameChars("event_page");
      case DatumPage => assert NameChars("datum_page");
      case BulkDatum => assert NameChars("bulk_datum");
      case BulkEvents => assert NameChars("bulk_events");
    }
  }

  /** The encoded document names are plain ASCII without spaces, so
      decoding them cannot fail and they fit in the name field of a frame. */
  lemma NameBytesAreUtf8(n: DocumentName)
    ensures WellFormedUtf8(NameBytes(n))
    ensures Space !in NameBytes(n)
  {
    var t := NameText(n);
    NameTextChars(n);
    assert forall k :: 0 <= k < |t| ==> AsciiBytes(t)[k] <= 0x7F && AsciiBytes(t)[k] != Space;
    AsciiIsUtf8(AsciiBytes(t));
  }

  lemma NameTextInjective(m: DocumentName, n: DocumentName)
    requires NameText(m) == NameText(n)
    ensures m == n
  {
  }

  lemma AsciiBytesInjective(a: string, b: string)
    requires NameChars(a) && NameChars(b)
    requires AsciiBytes(a) == AsciiBytes(b)
    ensures a == b
  {
    assert |a| == |AsciiBytes(a)| == |AsciiBytes(b)| == |b|;
    forall k | 0 <= k < |a|
      ensures a[k] == b[k]
    {
      assert AsciiBytes(a)[k] == AsciiBytes(b)[k];
    }
  }

  lemma NameBytesInjective(m: DocumentName, n: DocumentName)
    requires NameBytes(m) == NameBytes(n)
    ensures m == n
  {
    NameTextChars(m);
    NameTextChars(n);
    AsciiBytesInjective(NameText(m), NameText(n));
    NameTextInjective(m, n);
  }

  /** Every document name is found under its own bytes. */
  lemma LookupNameBytes(n: DocumentName)
    ensures LookupName(NameBytes(n)) == Some(n)
  {
    var r := LookupName(NameBytes(n));
    NameBytesInjective(r.value, n);
  }

  // ---------------------------------------------------------------------
  // One turn of the receive loop
  // ---------------------------------------------------------------------

  /** What one received message leads to, when nothing escapes the loop. */
  datatype Handling<D> =
    | Filtered                        // prefix mismatch: ignored before deserializing
    | Dropped(raw: seq<byte>)         // deserializer or DocumentNames[name] failed: printed and ignored
    | Dispatch(name: DocumentName, doc: D)  // call_soon(process, name, doc)

  predicate PrefixAccepts(ours: seq<byte>, theirs: seq<byte>)
  {
    ours == [] || theirs == ours
  }

  /** The body of `_poll`'s loop for one message. The split and the
      `decode()` sit outside the `try`, so their failures escape (`Err`);
      deserializer and name-lookup failures are caught. */
  function HandleMessage<D>(ours: seq<byte>, deserialize: seq<byte> -> Option<D>, message: seq<byte>): (r: Result<Handling<D>>)
    ensures r.Err? <==> SplitFrame(message).None? || !WellFormedUtf8(SplitFrame(message).value.name)
    ensures r.Ok? && r.value.Filtered? ==> ours != [] && SplitFrame(message).value.prefix != ours
    ensures r.Ok? && r.value.Dispatch? ==>
      var f := SplitFrame(message).value;
      && PrefixAccepts(ours, f.prefix)
      && NameBytes(r.value.name) == f.name
      && deserialize(f.body) == Some(r.value.doc)
    ensures r.Ok? && r.value.Dropped? ==>
      var f := SplitFrame(message).value;
      PrefixAccepts(ours, f.prefix) && (deserialize(f.body).None? || LookupName(f.name).None?)
  {
    match SplitFrame(message)
    case None => Err(ValueError)
    case Some(f) =>
      if !WellFormedUtf8(f.name) then Err(UnicodeDecodeError)
      else if !PrefixAccepts(ours, f.prefix) then Ok(Filtered)
      else
        match deserialize(f.body)
        case None => Ok(Dropped(f.name))
        case Some(doc) =>
          match LookupName(f.name)
          case None => Ok(Dropped(f.name))
          case Some(n) => Ok(Dispatch(n, doc))
  }

  /** A well-framed document whose prefix is accepted is scheduled with its
      deserialized body, or dropped when the body does not deserialize. */
  lemma AcceptedFrameDispatched<D>(ours: seq<byte>, deserialize: seq<byte> -> Option<D>, prefix: seq<byte>, n: DocumentName, body: seq<byte>)
    requires Space !in prefix && PrefixAccepts(ours, prefix)
    ensures HandleMessage(ours, deserialize, Encode(Frame(prefix, NameBytes(n), body))) ==
      if deserialize(body).Some? then Ok(Dispatch(n, deserialize(body).value)) else Ok(Dropped(NameBytes(n)))
  {
    NameBytesAreUtf8(n);
    FrameRoundTrip(Frame(prefix, NameBytes(n), body));
    LookupNameBytes(n);
  }

  /** With a configured prefix, a message under another prefix is ignored
      whatever its body: the deserializer is never consulted. */
  lemma ForeignPrefixFiltered<D>(ours: seq<byte>, deserialize: seq<byte> -> Option<D>, f: Frame)
    requires ours != [] && f.prefix != ours
    requires Space !in f.prefix && Space !in f.name && WellFormedUtf8(f.name)
    ensures HandleMessage(ours, deserialize, Encode(f)) == Ok(Filtered)
  {
    FrameRoundTrip(f);
  }

  /** A body the deserializer refuses, or a name that is not a document
      name, is caught inside the loop: nothing is scheduled and the loop
      goes on to the next message. */
  lemma FailuresContained<D>(ours: seq<byte>, deserialize: seq<byte> -> Option<D>, f: Frame)
    requires Space !in f.prefix && Space !in f.name && WellFormedUtf8(f.name)
    requires PrefixAccepts(ours, f.prefix)
    requires deserialize(f.body).None? || LookupName(f.name).None?
    ensures HandleMessage(ours, deserialize, Encode(f)) == Ok(Dropped(f.name))
  {
    FrameRoundTrip(f);
  }

  /** A message with fewer than two spaces fails at the split, before the
      `try`, whatever the prefix: the poll task ends with ValueError. */
  lemma ShortMessageEscapes<D>(ours: seq<byte>, deserialize: seq<byte> -> Option<D>, message: seq<byte>)
    requires Count(message, Space) < 2
    ensures HandleMessage(ours, deserialize, message) == Err(ValueError)
  {
    SplitFrameNeedsTwoSpaces(message);
  }

  /** An empty configured prefix lets every well-formed message through. */
  lemma EmptyPrefixFiltersNothing<D>(deserialize: seq<byte> -> Option<D>, message: seq<byte>)
    ensures !(HandleMessage([], deserialize, message) == Ok(Filtered))
  {
  }

  // ---------------------------------------------------------------------
  // The receive loop over an inbox
  // ---------------------------------------------------------------------

  /** The message at `index` raised `error` outside the `try`: the poll
      task ends with that exception. */
  datatype Crash = Crash(index: nat, error: PyError)

  datatype PollResult<D> = PollResult(scheduled: seq<(DocumentName, D)>, crash: Option<Crash>)

  function Scheduled<D>(h: Handling<D>): seq<(DocumentName, D)>
  {
    if h.Dispatch? then [(h.name, h.doc)] else []
  }

  /** The loop's effect, given what each message in turn led to: the calls
      scheduled before the first message that escaped, and that message. */
  function Collect<D>(handled: seq<Result<Handling<D>>>): (r: PollResult<D>)
    ensures |r.scheduled| <= |handled|
    ensures r.crash.Some? ==> r.crash.value.index < |handled|
    decreases |handled|
  {
    if handled == [] then PollResult([], None)
    else
      var last := |handled| - 1;
      var before := Collect(handled[..last]);
      if before.crash.Some? then before
      else
        match handled[last]
        case Err(e) => PollResult(before.scheduled, Some(Crash(last, e)))
        case Ok(h) => PollResult(before.scheduled + Scheduled(h), None)
  }

  /** What `_poll` makes of each message of the inbox, oldest first. */
  function HandleAll<D>(ours: seq<byte>, deserialize: seq<byte> -> Option<D>, inbox: seq<seq<byte>>): (r: seq<Result<Handling<D>>>)
    ensures |r| == |inbox|
  {
    seq(|inbox|, k requires 0 <= k < |inbox| => HandleMessage(ours, deserialize, inbox[k]))
  }

  /** `_poll` run over the messages received so far. The messages after
      the first one that escapes are never read; as handling a message has
      no effect of its own, reading them or not gives the same result. */
  function PollRun<D>(ours: seq<byte>, deserialize: seq<byte> -> Option<D>, inbox: seq<seq<byte>>): PollResult<D>
  {
    Collect(HandleAll(ours, deserialize, inbox))
  }

  /** The run ends in a crash exactly when some message escapes, and the
      crash names the first such message and its error. */
  lemma {:induction false} CollectCrashIsFirstEscape<D>(handled: seq<Result<Handling<D>>>)
    ensures Collect(handled).crash.None? ==> forall k :: 0 <= k < |handled| ==> handled[k].Ok?
    ensures Collect(handled).crash.Some? ==>
      var c := Collect(handled).crash.value;
      && handled[c.index] == Err(c.error)
      && forall k :: 0 <= k < c.index ==> handled[k].Ok?
    decreases |handled|
  {
    if handled != [] {
      var last := |handled| - 1;
      CollectCrashIsFirstEscape(handled[..last]);
      assert forall k :: 0 <= k < last ==> handled[..last][k] == handled[k];
    }
  }

  /** One more message: it either crashes the run or adds what it schedules. */
  lemma CollectStep<D>(handled: seq<Result<Handling<D>>>, i: nat)
    requires i < |handled|
    requires Collect(handled[..i]).crash.None?
    ensures handled[i].Err? ==> Collect(handled[..i + 1]) == PollResult(Collect(handled[..i]).scheduled, Some(Crash(i, handled[i].error)))
    ensures handled[i].Ok? ==> Collect(handled[..i + 1]) == PollResult(Collect(handled[..i]).scheduled + Scheduled(handled[i].value), None)
  {
    assert handled[..i + 1][..i] == handled[..i];
  }

  /** Once the run has crashed, later messages change nothing. */
  lemma {:induction false} CollectStaysCrashed<D>(handled: seq<Result<Handling<D>>>, k: nat)
    requires k <= |handled|
    requires Collect(handled[..k]).crash.Some?
    ensures Collect(handled) == Collect(handled[..k])
    decreases |handled| - k
  {
    if k < |handled| {
      assert handled[..k + 1][..k] == handled[..k];
      CollectStaysCrashed(handled, k + 1);
    } else {
      assert handled[..k] == handled;
    }
  }

  /** When every message is dispatched, all of them are scheduled, in
      arrival order, and the run does not crash. */
  lemma {:induction false} CollectAllDispatched<D>(handled: seq<Result<Handling<D>>>)
    requires forall k :: 0 <= k < |handled| ==> handled[k].Ok? && handled[k].value.Dispatch?
    ensures Collect(handled) ==
      PollResult(seq(|handled|, k requires 0 <= k < |handled| => (handled[k].value.name, handled[k].value.doc)), None)
    decreases |handled|
  {
    if handled != [] {
      var last := |handled| - 1;
      CollectAllDispatched(handled[..last]);
    }
  }

  /** No message of `handled` escaped the loop. */
  predicate NoneEscaped<D>(handled: seq<Result<Handling<D>>>)
  {
    forall k :: 0 <= k < |handled| ==> handled[k].Ok?
  }

  /** The calls scheduled when the messages are read oldest first up to
      the first one that escapes: a filtered or dropped message adds
      nothing, and the messages after it are still read. */
  function ScheduledUntilEscape<D>(handled: seq<Result<Handling<D>>>): seq<(DocumentName, D)>
  {
    if handled == [] then []
    else
      match handled[0]
      case Err(_) => []
      case Ok(h) => Scheduled(h) + ScheduledUntilEscape(handled[1..])
  }

  lemma {:induction false} ScheduledUntilEscapeConcat<D>(a: seq<Result<Handling<D>>>, b: seq<Result<Handling<D>>>)
    ensures ScheduledUntilEscape(a + b) ==
      ScheduledUntilEscape(a) + (if NoneEscaped(a) then ScheduledUntilEscape(b) else [])
    decreases |a|
  {
    if a == [] {
      assert a + b == b;
    } else {
      assert (a + b)[0] == a[0];
      assert (a + b)[1..] == a[1..] + b;
      ScheduledUntilEscapeConcat(a[1..], b);
      assert NoneEscaped(a) <==> a[0].Ok? && NoneEscaped(a[1..]) by {
        assert forall k :: 0 < k < |a| ==> a[k] == a[1..][k - 1];
      }
    }
  }

  /** The calls the loop schedules are those of every message before the
      first one that escapes, in arrival order, whatever the messages
      filtered out or dropped on the way. */
  lemma {:induction false} CollectSchedulesUntilEscape<D>(handled: seq<Result<Handling<D>>>)
    ensures Collect(handled).scheduled == ScheduledUntilEscape(handled)
    decreases |handled|
  {
    if handled != [] {
      var last := |handled| - 1;
      var prefix := handled[..last];
      CollectSchedulesUntilEscape(prefix);
      CollectCrashIsFirstEscape(prefix);
      assert handled == prefix + [handled[last]];
      ScheduledUntilEscapeConcat(prefix, [handled[last]]);
      assert [handled[last]][1..] == [];
      if Collect(prefix).crash.Some? {
        assert prefix[Collect(prefix).crash.value.index].Err?;
        assert !NoneEscaped(prefix);
      }
    }
  }

  /** A message that is filtered out or dropped does not end the loop:
      the run schedules exactly what it would without that message. */
  lemma SkippedMessageContinues<D>(before: seq<Result<Handling<D>>>, h: Handling<D>, after: seq<Result<Handling<D>>>)
    requires !h.Dispatch?
    ensures Collect(before + [Ok(h)] + after).scheduled == Collect(before + after).scheduled
  {
    var tail := [Ok(h)] + after;
    assert tail[0] == Ok(h) && tail[1..] == after;
    assert ScheduledUntilEscape(tail) == ScheduledUntilEscape(after);
    assert before + [Ok(h)] + after == before + tail;
    CollectSchedulesUntilEscape(before + tail);
    CollectSchedulesUntilEscape(before + after);
    ScheduledUntilEscapeConcat(before, tail);
    ScheduledUntilEscapeConcat(before, after);
  }

  /** A run over frames under an accepted prefix whose bodies all
      deserialize schedules every document under its name, in order. */
  lemma AllAcceptedScheduledInOrder<D>(ours: seq<byte>, deserialize: seq<byte> -> Option<D>,
                                       prefix: seq<byte>, names: seq<DocumentName>, bodies: seq<seq<byte>>)
    requires Space !in prefix && PrefixAccepts(ours, prefix)
    requires |names| == |bodies|
    requires forall k :: 0 <= k < |bodies| ==> deserialize(bodies[k]).Some?
    ensures var inbox := seq(|names|, k requires 0 <= k < |names| => Encode(Frame(prefix, NameBytes(names[k]), bodies[k])));
      PollRun(ours, deserialize, inbox) ==
        PollResult(seq(|names|, k requires 0 <= k < |names| => (names[k], deserialize(bodies[k]).value)), None)
  {
    var inbox := seq(|names|, k requires 0 <= k < |names| => Encode(Frame(prefix, NameBytes(names[k]), bodies[k])));
    var handled := HandleAll(ours, deserialize, inbox);
    forall k | 0 <= k < |names|
      ensures handled[k] == Ok(Dispatch(names[k], deserialize(bodies[k]).value))
    {
      AcceptedFrameDispatched(ours, deserialize, prefix, names[k], bodies[k]);
    }
    CollectAllDispatched(handled);
  }

  // ---------------------------------------------------------------------
  // The dispatcher object
  // ---------------------------------------------------------------------

  class RemoteDispatcher<D> {
    const prefix: seq<byte>
    const host: string
    const port: int
    const deserialize: seq<byte> -> Option<D>

    /** `_task`: the handle of the poll task, while one is running. */
    var task: Option<nat>
    var closed: bool
    /** Calls handed to `loop.call_soon`, in order, not yet run. */
    var scheduled: seq<(DocumentName, D)>
    /** Whether `loop.run_forever()` is running. */
    var loopRunning: bool
    /** Handles of the tasks that were cancelled. */
    var cancelled: seq<nat>
    /** Tasks created so far; the next task's handle. */
    var tasksCreated: nat

    ghost predicate Valid()
      reads this
    {
      && Space !in prefix
      && (task.Some? ==> task.value < tasksCreated && task.value !in cancelled)
      && (closed ==> task.None?)
      && forall k :: 0 <= k < |cancelled| ==> cancelled[k] < tasksCreated
    }

    /** `__init__` once `Configure` accepted the arguments. */
    constructor (settings: Settings, deserialize: seq<byte> -> Option<D>)
      requires Space !in settings.prefix
      ensures Valid()
      ensures prefix == settings.prefix && host == settings.host && port == settings.port
      ensures this.deserialize == deserialize
      ensures task == None && !closed && scheduled == [] && !loopRunning && cancelled == [] && tasksCreated == 0
    {
      prefix := settings.prefix;
      host := settings.host;
      port := settings.port;
      this.deserialize := deserialize;
      task := None;
      closed := false;
      scheduled := [];
      loopRunning := false;
      cancelled := [];
      tasksCreated := 0;
    }

    /** `_poll` consuming `inbox`: every accepted, decodable document is
      scheduled in order; the first message that fails to split or decode
      ends the task (the returned crash), and later messages are never read. */
    method Poll(inbox: seq<seq<byte>>) returns (crash: Option<Crash>)
      modifies this`scheduled
      ensures scheduled == old(scheduled) + PollRun(prefix, deserialize, inbox).scheduled
      ensures crash == PollRun(prefix, deserialize, inbox).crash
    {
      crash := Receive(inbox, HandleAll(prefix, deserialize, inbox));
    }

    /** The receive loop, given what each message of `inbox` leads to. */
    method Receive(inbox: seq<seq<byte>>, ghost handled: seq<Result<Handling<D>>>) returns (crash: Option<Crash>)
      requires |handled| == |inbox|
      requires forall k :: 0 <= k < |inbox| ==> handled[k] == HandleMessage(prefix, deserialize, inbox[k])
      modifies this`scheduled
      ensures scheduled == old(scheduled) + Collect(handled).scheduled
      ensures crash == Collect(handled).crash
    {
      var i := 0;
      crash := None;
      while i < |inbox|
        invariant 0 <= i <= |inbox|
        invariant Collect(handled[..i]).crash.None?
        invariant scheduled == old(scheduled) + Collect(handled[..i]).scheduled
      {
        var outcome := HandleMessage(prefix, deserialize, inbox[i]);
        ghost var before := Collect(handled[..i]);
        assert outcome == handled[i];
        if outcome.Err? {
          crash := Some(Crash(i, outcome.error));
          assert Collect(handled) == PollResult(before.scheduled, crash) by {
            CollectStep(handled, i);
            CollectStaysCrashed(handled, i + 1);
          }
          return;
        }
        if outcome.value.Dispatch? {
          scheduled := scheduled + [(outcome.value.name, outcome.value.doc)];
        }
        assert Collect(handled[..i + 1]) == PollResult(before.scheduled + Scheduled(outcome.value), None) by {
          CollectStep(handled, i);
        }
        i := i + 1;
      }
      assert handled[..i] == handled;
    }

    /** `start()`: refused once closed. Otherwise the poll task is created
      and the loop runs it over `inbox`; the loop then runs until an
      interrupt, which `stop()`s the dispatcher and is re-raised. */
    method Start(inbox: seq<seq<byte>>) returns (outcome: Outcome)
      requires Valid()
      modifies this
      ensures Valid()
      ensures old(closed) ==> (outcome == Raised(RuntimeError)
        && task == old(task) && closed && scheduled == old(scheduled)
        && loopRunning == old(loopRunning) && cancelled == old(cancelled) && tasksCreated == old(tasksCreated))
      ensures !old(closed) ==> (outcome == Raised(KeyboardInterrupt)
        && tasksCreated == old(tasksCreated) + 1
        && scheduled == old(scheduled) + PollRun(prefix, deserialize, inbox).scheduled
        && cancelled == old(cancelled) + [old(tasksCreated)]
        && closed && task == None && !loopRunning)
    {
      if closed {
        return Raised(RuntimeError);
      }
      task := Some(tasksCreated);
      tasksCreated := tasksCreated + 1;
      loopRunning := true;
      var _ := Poll(inbox);
      Stop();
      return Raised(KeyboardInterrupt);
    }

    /** `stop()`: cancels the poll task and stops the loop if a task is
      running; always ends closed with no task. A second call changes
      nothing. */
    method Stop()
      requires Valid()
      modifies this
      ensures Valid()
      ensures closed && task == None
      ensures old(task).Some? ==> cancelled == old(cancelled) + [old(task).value] && !loopRunning
      ensures old(task).Some? ==> old(task).value !in old(cancelled) && old(task).value < tasksCreated
      ensures old(task).None? ==> cancelled == old(cancelled) && loopRunning == old(loopRunning)
      ensures scheduled == old(scheduled) && tasksCreated == old(tasksCreated)
    {
      if task.Some? {
        cancelled := cancelled + [task.value];
        loopRunning := false;
      }
      task := None;
      closed := true;
    }
  }

  /** Stopping twice leaves the dispatcher as the first stop left it. */
  method StopTwice<D>(d: RemoteDispatcher<D>)
    requires d.Valid()
    modifies d
    ensures d.closed && d.task == None
    ensures d.cancelled == old(d.cancelled) + (if old(d.task).Some? then [old(d.task).value] else [])
    ensures d.scheduled == old(d.scheduled)
  {
    d.Stop();
    ghost var afterFirst := d.cancelled;
    d.Stop();
    assert d.cancelled == afterFirst;
  }
}
