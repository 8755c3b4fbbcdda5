/** Typed text (type_string.go, charly_extension.go, catalog.go): the US-layout mapper,
    the press and release reports it turns into, and the host that reads them back. */
module TypeText {
  import opened Outcomes
  import opened Words
  import opened HidProto
  import opened HidCore

  const MAX_TYPE_STRING_RUNES := 4096
  const LEFT_SHIFT: byte := 0x02

  datatype Keypress = Keypress(modifier: byte, usage: byte)

  datatype TypeError = EmptyText | TooLong | Unsupported(position: nat)

  function Plain(usage: byte): Option<Keypress> { Some(Keypress(0, usage)) }

  function Shifted(usage: byte): Option<Keypress> { Some(Keypress(LEFT_SHIFT, usage)) }

  function MapUSKeyboardRune(c: char): Option<Keypress> {
    if 'a' <= c <= 'z' then Plain(0x04 + (c as int - 'a' as int))
    else if 'A' <= c <= 'Z' then Shifted(0x04 + (c as int - 'A' as int))
    else if '1' <= c <= '9' then Plain(0x1e + (c as int - '1' as int))
    else
      match c
      case '0' => Plain(0x27)
      case '\n' => Plain(0x28)
      case '\t' => Plain(0x2b)
      case ' ' => Plain(0x2c)
      case '-' => Plain(0x2d)
      case '=' => Plain(0x2e)
      case '[' => Plain(0x2f)
      case ']' => Plain(0x30)
      case '\\' => Plain(0x31)
      case ';' => Plain(0x33)
      case '\'' => Plain(0x34)
      case '`' => Plain(0x35)
      case ',' => Plain(0x36)
      case '.' => Plain(0x37)
      case '/' => Plain(0x38)
      case '!' => Shifted(0x1e)
      case '@' => Shifted(0x1f)
      case '#' => Shifted(0x20)
      case '$' => Shifted(0x21)
      case '%' => Shifted(0x22)
      case '^' => Shifted(0x23)
      case '&' => Shifted(0x24)
      case '*' => Shifted(0x25)
      case '(' => Shifted(0x26)
      case ')' => Shifted(0x27)
      case '_' => Shifted(0x2d)
      case '+' => Shifted(0x2e)
      case '{' => Shifted(0x2f)
      case '}' => Shifted(0x30)
      case '|' => Shifted(0x31)
      case ':' => Shifted(0x33)
      case '"' => Shifted(0x34)
      case '~' => Shifted(0x35)
      case '<' => Shifted(0x36)
      case '>' => Shifted(0x37)
      case '?' => Shifted(0x38)
      case _ => None
  }

  /** Printable ASCII, newline and tab. */
  predicate Supported(c: char) { ' ' <= c <= '~' || c == '\n' || c == '\t' }

  predicate Typable(text: string) {
    0 < |text| <= 4096 && forall i | 0 <= i < |text| :: Supported(text[i])
  }

  /** The mapper covers exactly the supported characters. */
  lemma MapsSupported(c: char)
    ensures MapUSKeyboardRune(c).Some? <==> Supported(c)
    ensures MapUSKeyboardRune(c).Some? ==> MapUSKeyboardRune(c).value.usage != 0
  {
  }

  /** One press per character, or an error and no press at all. */
  method MapTypeString(text: string) returns (r: Result<seq<Keypress>, TypeError>)
    ensures r.Success? <==> Typable(text)
    ensures r.Success? ==>
              |r.value| == |text| && forall i | 0 <= i < |text| :: MapUSKeyboardRune(text[i]) == Some(r.value[i])
    ensures (r == Failure(EmptyText) <==> text == "") && (r == Failure(TooLong) <==> |text| > 4096)
    ensures r.Failure? && r.error.Unsupported? ==>
              var p := r.error.position - 1;
              0 <= p < |text| && !Supported(text[p]) && forall j | 0 <= j < p :: Supported(text[j])
  {
    hide MapUSKeyboardRune, Supported;
    if text == "" { return Failure(EmptyText); }
    if |text| > MAX_TYPE_STRING_RUNES { return Failure(TooLong); }
    var keypresses: seq<Keypress> := [];
    for i := 0 to |text|
      invariant |keypresses| == i
      invariant forall k | 0 <= k < i :: Supported(text[k]) && MapUSKeyboardRune(text[k]) == Some(keypresses[k])
    {
      MapsSupported(text[i]);
      var keypress := MapUSKeyboardRune(text[i]);
      if keypress.None? { return Failure(Unsupported(i + 1)); }
      keypresses := keypresses + [keypress.value];
    }
    return Success(keypresses);
  }

  datatype TypedReport = TypedReport(modifier: byte, keys: seq<byte>)

  /** The keyboard report of one press: its usage in the first of six key slots. */
  function Press(k: Keypress): TypedReport { TypedReport(k.modifier, [k.usage] + NO_KEYS[1..]) }

  predicate Presses(reports: seq<TypedReport>, text: string) {
    && |reports| == |text|
    && forall i | 0 <= i < |text| ::
         MapUSKeyboardRune(text[i]).Some? && reports[i] == Press(MapUSKeyboardRune(text[i]).value)
  }

  method MapTypeReports(text: string) returns (r: Result<seq<TypedReport>, TypeError>)
    ensures r.Success? <==> Typable(text)
    ensures r.Success? ==> Presses(r.value, text)
  {
    hide MapUSKeyboardRune;
    var mapped := MapTypeString(text);
    if mapped.Failure? { return Failure(mapped.error); }
    var presses := mapped.value;
    var out: seq<TypedReport> := [];
    for i := 0 to |presses|
      invariant |out| == i && forall k | 0 <= k < i :: out[k] == Press(presses[k])
    {
      var keys := NO_KEYS;
      if presses[i].usage != 0 { keys := keys[0 := presses[i].usage]; }
      assert keys == [presses[i].usage] + NO_KEYS[1..];
      out := out + [TypedReport(presses[i].modifier, keys)];
    }
    return Success(out);
  }

  /** What methodType sends under its lease: each press, then a release. */
  function ReportStream(presses: seq<TypedReport>): seq<Report> {
    if |presses| == 0 then []
    else
      var last := presses[|presses| - 1];
      ReportStream(presses[..|presses| - 1]) + [Keyboard(last.modifier, last.keys), RELEASE_ALL_KEYBOARD]
  }

  lemma {:induction false} StreamIsPrefix(presses: seq<TypedReport>, n: nat)
    requires n <= |presses|
    ensures |ReportStream(presses[..n])| == 2 * n <= |ReportStream(presses)|
    ensures ReportStream(presses[..n]) == ReportStream(presses)[..2 * n]
    decreases |presses|
  {
    if n == |presses| {
      assert presses[..n] == presses;
      if n > 0 { StreamIsPrefix(presses[..n - 1], n - 1); assert presses[..n - 1][..n - 1] == presses[..n - 1]; }
    } else {
      var rest := presses[..|presses| - 1];
      assert rest[..n] == presses[..n];
      StreamIsPrefix(rest, n);
    }
  }

  lemma StreamSnoc(presses: seq<TypedReport>, i: nat)
    requires i < |presses|
    ensures ReportStream(presses[..i + 1]) ==
              ReportStream(presses[..i]) + [Keyboard(presses[i].modifier, presses[i].keys), RELEASE_ALL_KEYBOARD]
  {
    assert presses[..i + 1][..i] == presses[..i];
  }

  /** The whole method. `accepted` is how many sends succeed before one fails; the failing
      one may or may not have been delivered. What was offered is always a prefix of the
      stream: all of it when no send fails, else up to the send that failed. */
  method TypeIt(text: string, ctx: nat, token: nat, accepted: nat)
    returns (offered: seq<Report>, failed: bool, err: Option<TypeError>)
    ensures err.None? <==> Typable(text)
    ensures err.Some? ==> offered == [] && !failed
    ensures err.None? ==> exists presses | Presses(presses, text) ::
              var stream := ReportStream(presses);
              && (failed <==> accepted < |stream|)
              && offered == if failed then stream[..accepted + 1] else stream
  {
    hide Presses, ReportStream;
    var mapped := MapTypeReports(text);
    if mapped.Failure? { return [], false, Some(mapped.error); }
    var presses := mapped.value;
    ghost var stream := ReportStream(presses);
    offered, failed := [], false;
    assert ReportStream(presses[..0]) == [] by { StreamIsPrefix(presses, 0); }
    for i := 0 to |presses|
      invariant offered == ReportStream(presses[..i]) && |offered| == 2 * i <= accepted
    {
      StreamSnoc(presses, i);
      StreamIsPrefix(presses, i + 1);
      offered := offered + [SendKeyboardReport(ctx, token, presses[i].modifier, presses[i].keys).report];
      if |offered| > accepted { return offered, true, None; }
      offered := offered + [ReleaseKeyboard(ctx, token).report];
      if |offered| > accepted { return offered, true, None; }
    }
    assert presses[..|presses|] == presses;
    return offered, false, None;
  }

  // --- the host ----------------------------------------------------------------------

  /** A US keyboard by position, page 0x07 of the USB HID Usage Tables: what the key
      of this usage types alone and with shift. */
  function KeyCap(usage: byte): Option<(char, char)> {
    if 0x04 <= usage <= 0x1d then Some((('a' as int + (usage - 0x04)) as char, ('A' as int + (usage - 0x04)) as char))
    else
      match usage
      case 0x1e => Some(('1', '!'))
      case 0x1f => Some(('2', '@'))
      case 0x20 => Some(('3', '#'))
      case 0x21 => Some(('4', '$'))
      case 0x22 => Some(('5', '%'))
      case 0x23 => Some(('6', '^'))
      case 0x24 => Some(('7', '&'))
      case 0x25 => Some(('8', '*'))
      case 0x26 => Some(('9', '('))
      case 0x27 => Some(('0', ')'))
      case 0x28 => Some(('\n', '\n'))
      case 0x2b => Some(('\t', '\t'))
      case 0x2c => Some((' ', ' '))
      case 0x2d => Some(('-', '_'))
      case 0x2e => Some(('=', '+'))
      case 0x2f => Some(('[', '{'))
      case 0x30 => Some((']', '}'))
      case 0x31 => Some(('\\', '|'))
      case 0x33 => Some((';', ':'))
      case 0x34 => Some(('\'', '"'))
      case 0x35 => Some(('`', '~'))
      case 0x36 => Some((',', '<'))
      case 0x37 => Some(('.', '>'))
      case 0x38 => Some(('/', '?'))
      case _ => None
  }

  /** Bits 1 and 5 of the modifier byte are the two shift keys. */
  predicate ShiftDown(modifier: byte) { (modifier / 2) % 2 == 1 || (modifier / 32) % 2 == 1 }

  function Typed(modifier: byte, usage: byte): string {
    match KeyCap(usage)
    case None => []
    case Some((plain, shifted)) => [if ShiftDown(modifier) then shifted else plain]
  }

  /** The characters of the keys among the first n slots that were up before and are down now. */
  function NewlyDown(was: KeydownState, now: KeydownState, n: nat): string
    requires n <= |now.keys|
  {
    if n == 0 then []
    else
      var usage := now.keys[n - 1];
      NewlyDown(was, now, n - 1) + if usage != 0 && usage !in was.keys then Typed(now.modifier, usage) else []
  }

  /** What the host types while the device receives these raw frames. */
  function HostReads(d: Device, frames: seq<seq<byte>>): string
    decreases |frames|
  {
    if |frames| == 0 then []
    else
      var d' := Receive(d, frames[0]);
      NewlyDown(d.keyboard, d'.keyboard, |d'.keyboard.keys|) + HostReads(d', frames[1..])
  }

  function DeviceAfter(d: Device, frames: seq<seq<byte>>): Device
    decreases |frames|
  {
    if |frames| == 0 then d else DeviceAfter(Receive(d, frames[0]), frames[1..])
  }

  /** The frames of a report stream; every one of its reports can be encoded. */
  function Frames(reports: seq<Report>): seq<seq<byte>>
    requires forall r <- reports :: Encode(r).Success?
  {
    seq(|reports|, i requires 0 <= i < |reports| => Encode(reports[i]).value)
  }

  // --- text survives the trip ------------------------------------------------------------

  lemma ReadsBack(c: char)
    requires MapUSKeyboardRune(c).Some?
    ensures var k := MapUSKeyboardRune(c).value;
            (k.modifier == 0 || k.modifier == 2) && Typed(k.modifier, k.usage) == [c]
  {
  }

  /** The mapper covers exactly the supported characters, with left shift or no modifier, and
      the host reads each press as the character it stands for. */
  lemma MapsExactly(c: char)
    ensures MapUSKeyboardRune(c).Some? <==> Supported(c)
    ensures MapUSKeyboardRune(c).Some? ==>
              var k := MapUSKeyboardRune(c).value;
              k.usage != 0 && (k.modifier == 0 || k.modifier == 2) && Typed(k.modifier, k.usage) == [c]
  {
    hide Typed, MapUSKeyboardRune, Supported;
    MapsSupported(c);
    if MapUSKeyboardRune(c).Some? { ReadsBack(c); }
  }

  lemma {:induction false} HostReadsJoins(d: Device, a: seq<seq<byte>>, b: seq<seq<byte>>)
    ensures HostReads(d, a + b) == HostReads(d, a) + HostReads(DeviceAfter(d, a), b)
    ensures DeviceAfter(d, a + b) == DeviceAfter(DeviceAfter(d, a), b)
    decreases |a|
  {
    hide Receive;
    if |a| == 0 {
      assert a + b == b;
    } else {
      assert (a + b)[1..] == a[1..] + b;
      HostReadsJoins(Receive(d, a[0]), a[1..], b);
    }
  }

  lemma {:induction false} OnlyFirst(was: KeydownState, now: KeydownState, n: nat)
    requires 1 <= n <= |now.keys| && forall i | 1 <= i < |now.keys| :: now.keys[i] == 0
    ensures NewlyDown(was, now, n) == NewlyDown(was, now, 1)
  {
    if n > 1 { OnlyFirst(was, now, n - 1); }
  }

  lemma OneNewKey(was: KeydownState, k: Keypress)
    requires was.IsReleaseAll() && k.usage != 0
    ensures NewlyDown(was, KeydownState(Press(k).modifier, Press(k).keys), 6) == Typed(k.modifier, k.usage)
  {
    hide Typed;
    var now := KeydownState(Press(k).modifier, Press(k).keys);
    assert NewlyDown(was, now, 1) == Typed(k.modifier, k.usage);
    OnlyFirst(was, now, 6);
  }

  lemma {:induction false} NothingNew(was: KeydownState, now: KeydownState, n: nat)
    requires n <= |now.keys| && now.IsReleaseAll()
    ensures NewlyDown(was, now, n) == []
  {
    if n > 0 { NothingNew(was, now, n - 1); }
  }

  /** Pressing and releasing one key on an idle keyboard types its character and leaves
      the keyboard idle. */
  lemma OneKey(d: Device, k: Keypress)
    requires d.keyboard.IsReleaseAll() && k.usage != 0
    ensures var press := Keyboard(Press(k).modifier, Press(k).keys);
            && Encode(press).Success? && Encode(RELEASE_ALL_KEYBOARD).Success?
            && var frames := [Encode(press).value, Encode(RELEASE_ALL_KEYBOARD).value];
            && HostReads(d, frames) == Typed(k.modifier, k.usage)
            && DeviceAfter(d, frames).keyboard.IsReleaseAll()
  {
    hide Encode, Receive, Typed;
    var press := Keyboard(Press(k).modifier, Press(k).keys);
    EncodeReachesDevice(press, d);
    var d1 := Apply(d, press);
    EncodeReachesDevice(RELEASE_ALL_KEYBOARD, d1);
    var d2 := Apply(d1, RELEASE_ALL_KEYBOARD);
    var frames := [Encode(press).value, Encode(RELEASE_ALL_KEYBOARD).value];
    var second := frames[1..];
    assert second == [frames[1]] && second[1..] == [];
    OneNewKey(d.keyboard, k);
    NothingNew(d1.keyboard, d2.keyboard, 6);
    assert HostReads(d1, second) == [];
    assert DeviceAfter(d1, second) == DeviceAfter(d2, []) == d2;
  }

  lemma {:induction false} StreamEncodes(presses: seq<TypedReport>)
    requires forall p <- presses :: |p.keys| <= HID_KEY_BUFFER_SIZE
    ensures forall r <- ReportStream(presses) :: Encode(r).Success?
  {
    hide Encode;
    if |presses| > 0 {
      var last := presses[|presses| - 1];
      StreamEncodes(presses[..|presses| - 1]);
      EncodeReachesDevice(Keyboard(last.modifier, last.keys), POWER_ON);
      EncodeReachesDevice(RELEASE_ALL_KEYBOARD, POWER_ON);
    }
  }

  lemma FramesJoin(a: seq<Report>, x: Report, y: Report)
    requires forall r <- a + [x, y] :: Encode(r).Success?
    ensures forall r <- a :: Encode(r).Success?
    ensures Encode(x).Success? && Encode(y).Success?
    ensures Frames(a + [x, y]) == Frames(a) + [Encode(x).value, Encode(y).value]
  {
    hide Encode;
    var all := a + [x, y];
    assert forall i | 0 <= i < |a| :: all[i] == a[i];
    assert all[|a|] == x && all[|a| + 1] == y;
    forall r | r in a ensures Encode(r).Success? { assert r in all; }
  }

  /** A host that types a character on each key-up to key-down transition and reads
      usages by US layout recovers exactly the text, repeated characters included. */
  lemma {:induction false} TextSurvives(text: string, presses: seq<TypedReport>, d: Device)
    requires Presses(presses, text) && d.keyboard.IsReleaseAll()
    ensures forall r <- ReportStream(presses) :: Encode(r).Success?
    ensures HostReads(d, Frames(ReportStream(presses))) == text
    ensures DeviceAfter(d, Frames(ReportStream(presses))).keyboard.IsReleaseAll()
  {
    hide Encode, MapUSKeyboardRune, Receive, Typed, NewlyDown;
    StreamEncodes(presses);
    if |text| > 0 {
      var n := |text| - 1;
      var rest, last := presses[..n], presses[n];
      var k := MapUSKeyboardRune(text[n]).value;
      var press := Keyboard(last.modifier, last.keys);
      TextSurvives(text[..n], rest, d);
      FramesJoin(ReportStream(rest), press, RELEASE_ALL_KEYBOARD);
      var most := Frames(ReportStream(rest));
      HostReadsJoins(d, most, [Encode(press).value, Encode(RELEASE_ALL_KEYBOARD).value]);
      MapsExactly(text[n]);
      OneKey(DeviceAfter(d, most), k);
      assert text == text[..n] + [text[n]];
    }
  }

  /** And whatever prefix of those frames the device received, the host has read a prefix
      of the text: an interrupted call types the beginning and nothing else. */
  lemma PrefixReadsPrefix(text: string, presses: seq<TypedReport>, d: Device, n: nat)
    requires Presses(presses, text) && d.keyboard.IsReleaseAll()
    requires forall r <- ReportStream(presses) :: Encode(r).Success?
    requires n <= |ReportStream(presses)|
    ensures HostReads(d, Frames(ReportStream(presses))[..n]) <= text
  {
    hide HostReads, ReportStream, Presses, Encode, DeviceAfter;
    TextSurvives(text, presses, d);
    var frames := Frames(ReportStream(presses));
    assert frames == frames[..n] + frames[n..];
    HostReadsJoins(d, frames[..n], frames[n..]);
  }
}
