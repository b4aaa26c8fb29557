/** The parsers of util/utils.go: command topics, their normal form and
    command timeouts. A Go panic is modelled by the result None. */
module Util {
  import opened Durations
  import opened Options
  import opened TopicStrings

  const SHORT_COMMAND := "c//"
  const LONG_COMMAND := "command//"
  const SHORT_REQUEST_END := "/q/#"
  const LONG_REQUEST_END := "/req/#"

  // ---------- Normal form of command topics ----------

  function LongPrefix(topic: string): string {
    if HasPrefix(topic, SHORT_COMMAND) then ReplaceFirst(topic, "c", "command") else topic
  }

  function LongSuffix(topic: string): string {
    if HasSuffix(topic, SHORT_REQUEST_END) then ReplaceFirst(topic, SHORT_REQUEST_END, LONG_REQUEST_END) else topic
  }

  /** Converts a command topic to its long form. */
  function NormalizeTopic(topic: string): string {
    LongSuffix(LongPrefix(topic))
  }

  lemma LongPrefixShape(topic: string)
    ensures HasPrefix(topic, SHORT_COMMAND) ==> LongPrefix(topic) == "command" + topic[1..] && LongPrefix(topic)[1] == 'o'
    ensures !HasPrefix(LongPrefix(topic), SHORT_COMMAND)
  {
    if HasPrefix(topic, SHORT_COMMAND) {
      assert OccursAt(topic, "c", 0);
      assert LongPrefix(topic)[1] == 'o';
    }
  }

  /** The short request ending stands at position `k`. */
  predicate EndAt(s: string, k: int) {
    0 <= k <= |s| - 4 && s[k] == '/' && s[k + 1] == 'q' && s[k + 2] == '/' && s[k + 3] == '#'
  }

  lemma EndAtOccurs(s: string)
    ensures forall k :: OccursAt(s, SHORT_REQUEST_END, k) <==> EndAt(s, k)
    ensures HasSuffix(s, SHORT_REQUEST_END) <==> EndAt(s, |s| - 4)
  {
    forall k: int | 0 <= k <= |s| - 4
      ensures s[k..k + 4] == SHORT_REQUEST_END <==> EndAt(s, k)
    {
      var sub := s[k..k + 4];
      assert sub == [sub[0], sub[1], sub[2], sub[3]];
    }
    if |s| >= 4 {
      assert s[|s| - 4..] == s[|s| - 4..|s| - 4 + 4];
    }
  }

  /** The short request ending stands only where a suffix does. */
  ghost predicate EndsOnce(topic: string) {
    forall k :: EndAt(topic, k) ==> k == |topic| - 4
  }

  lemma LongSuffixShape(topic: string)
    requires EndAt(topic, |topic| - 4)
    ensures HasSuffix(topic, SHORT_REQUEST_END)
    ensures EndsOnce(topic) ==> LongSuffix(topic) == topic[..|topic| - 4] + LONG_REQUEST_END
    ensures EndAt(LongSuffix(topic), |topic| - 2) <==> !EndsOnce(topic)
    ensures |LongSuffix(topic)| == |topic| + 2
  {
    EndAtOccurs(topic);
    var i := Find(topic, SHORT_REQUEST_END);
    var r := LongSuffix(topic);
    assert r == topic[..i] + LONG_REQUEST_END + topic[i + 4..];
    RewrittenEnd(topic, i, r);
    if EndsOnce(topic) {
      assert topic[i + 4..] == [];
    } else {
      assert i + 4 <= |topic| - 4;
    }
  }

  /** The letters behind a rewritten ending. */
  lemma RewrittenEnd(topic: string, i: nat, r: string)
    requires i + 4 <= |topic| && r == topic[..i] + LONG_REQUEST_END + topic[i + 4..]
    ensures |r| == |topic| + 2 && r[i + 2] == 'e'
    ensures forall j :: i + 4 <= j < |topic| ==> r[j + 2] == topic[j]
  {
  }

  lemma LongSuffixKeepsPrefix(topic: string)
    requires !HasPrefix(topic, SHORT_COMMAND)
    ensures !HasPrefix(LongSuffix(topic), SHORT_COMMAND)
  {
    if HasSuffix(topic, SHORT_REQUEST_END) {
      var i := Find(topic, SHORT_REQUEST_END);
      EndAtOccurs(topic);
      var r := LongSuffix(topic);
      StartsShort(topic);
      StartsShort(r);
      Rewritten(topic, i, r);
    }
  }

  /** The letters around a rewritten ending. */
  lemma Rewritten(topic: string, i: nat, r: string)
    requires EndAt(topic, i) && r == topic[..i] + LONG_REQUEST_END + topic[i + 4..]
    ensures |r| > i + 1 && r[i] == '/' && r[i + 1] == 'r'
    ensures forall j :: 0 <= j < i ==> r[j] == topic[j]
  {
    assert r == topic[..i] + (LONG_REQUEST_END + topic[i + 4..]);
  }

  lemma StartsShort(s: string)
    ensures HasPrefix(s, SHORT_COMMAND) <==> |s| >= 3 && s[0] == 'c' && s[1] == '/' && s[2] == '/'
  {
    if |s| >= 3 {
      assert s[..3] == [s[0], s[1], s[2]];
    }
  }

  /** Normalising is idempotent exactly on the topics where the short request
      ending, if the long-prefix form has it as a suffix, occurs nowhere else. */
  lemma NormalizeIdempotent(topic: string)
    ensures NormalizeTopic(NormalizeTopic(topic)) == NormalizeTopic(topic)
            <==> (HasSuffix(topic, SHORT_REQUEST_END) ==> EndsOnce(topic))
  {
    var p := LongPrefix(topic);
    LongPrefixShape(topic);
    EndThroughPrefix(topic);
    EndAtOccurs(topic);
    EndAtOccurs(p);
    var n := NormalizeTopic(topic);
    EndAtOccurs(n);
    LongSuffixKeepsPrefix(p);
    assert NormalizeTopic(n) == LongSuffix(n);
    if EndAt(p, |p| - 4) {
      LongSuffixShape(p);
      if !EndsOnce(p) {
        LongSuffixShape(n);
      }
    }
  }

  /** Lengthening the prefix moves the occurrences of the short ending and adds none. */
  lemma EndThroughPrefix(topic: string)
    ensures EndAt(LongPrefix(topic), |LongPrefix(topic)| - 4) <==> EndAt(topic, |topic| - 4)
    ensures EndsOnce(LongPrefix(topic)) <==> EndsOnce(topic)
  {
    LongPrefixShape(topic);
    if HasPrefix(topic, SHORT_COMMAND) {
      var p := LongPrefix(topic);
      LettersThroughPrefix(topic);
      forall k ensures EndAt(topic, k) <==> EndAt(p, k + 6) {
      }
      assert forall k :: EndAt(p, k) ==> EndAt(topic, k - 6);
    }
  }

  lemma LettersThroughPrefix(topic: string)
    requires HasPrefix(topic, SHORT_COMMAND)
    ensures var p := LongPrefix(topic);
            && |p| == |topic| + 6 && topic[0] != '/'
            && (forall j :: 0 <= j < 7 ==> p[j] != '/')
            && (forall j :: 1 <= j < |topic| ==> p[j + 6] == topic[j])
  {
    LongPrefixShape(topic);
    assert topic[0] == 'c';
    assert forall j :: 0 <= j < 7 ==> LongPrefix(topic)[j] == "command"[j];
  }

  /** `#` stands only at the end, as section 4.7.1.2 of MQTT 3.1.1 demands of a filter. */
  ghost predicate HashOnlyLast(filter: string) {
    forall k :: 0 <= k < |filter| && filter[k] == '#' ==> k == |filter| - 1
  }

  /** On well-formed filters normalising is a canonicalisation. */
  lemma NormalizeIdempotentOnFilters(filter: string)
    requires HashOnlyLast(filter)
    ensures NormalizeTopic(NormalizeTopic(filter)) == NormalizeTopic(filter)
  {
    assert EndsOnce(filter);
    NormalizeIdempotent(filter);
  }

  /** A log text with `#` in the middle on which one pass is not enough: the first
      pass lengthens the inner ending, the second one the outer. */
  lemma NormalizeNotIdempotent()
    ensures NormalizeTopic(NormalizeTopic("c//x/q/#/q/#")) != NormalizeTopic("c//x/q/#/q/#")
  {
    var t := "c//x/q/#/q/#";
    assert EndAt(t, 4) && EndAt(t, 8);
    EndAtOccurs(t);
    NormalizeIdempotent(t);
  }

  /** A command filter in its short or long forms. */
  function CommandFilter(longPrefix: bool, longEnd: bool, device: string): string {
    (if longPrefix then LONG_COMMAND else SHORT_COMMAND) + device + (if longEnd then LONG_REQUEST_END else SHORT_REQUEST_END)
  }

  lemma CommandFilterNormal(longPrefix: bool, longEnd: bool, device: string)
    requires SlashFree(device)
    ensures NormalizeTopic(CommandFilter(longPrefix, longEnd, device)) == LONG_COMMAND + device + LONG_REQUEST_END
  {
    var f := CommandFilter(longPrefix, longEnd, device);
    LongPrefixShape(f);
    assert LongPrefix(f) == CommandFilter(true, longEnd, device) by {
      if longPrefix {
        assert f[1] == 'o';
      } else {
        assert HasPrefix(f, SHORT_COMMAND);
      }
    }
    LongFilterNormal(longEnd, device);
  }

  lemma LongFilterNormal(longEnd: bool, device: string)
    requires SlashFree(device)
    ensures LongSuffix(CommandFilter(true, longEnd, device)) == LONG_COMMAND + device + LONG_REQUEST_END
  {
    var p := CommandFilter(true, longEnd, device);
    EndAtOccurs(p);
    LongFilterLetters(longEnd, device);
    if longEnd {
      assert p[|p| - 4] == 'e';
    } else {
      assert EndAt(p, |p| - 4);
      assert EndsOnce(p) by {
        forall k | EndAt(p, k) ensures k == |p| - 4 {
          assert p[k] == '/' && p[k + 1] == 'q';
        }
      }
      LongSuffixShape(p);
      assert p[..|p| - 4] == LONG_COMMAND + device;
    }
  }

  /** Where the slashes of a long-prefix filter are. */
  lemma LongFilterLetters(longEnd: bool, device: string)
    requires SlashFree(device)
    ensures var p, m := CommandFilter(true, longEnd, device), 9 + |device|;
            && (forall j :: 0 <= j < m && p[j] == '/' ==> (j == 7 || j == 8))
            && p[8] == '/'
            && p[m..] == (if longEnd then LONG_REQUEST_END else SHORT_REQUEST_END)
            && (forall j :: 0 <= j < |p| - m ==> p[m + j] == p[m..][j])
  {
    var p, m := CommandFilter(true, longEnd, device), 9 + |device|;
    assert forall j :: 9 <= j < m ==> p[j] == device[j - 9];
    assert forall j :: 0 <= j < 9 ==> p[j] == "command//"[j];
  }

  /** All four spellings of a command filter have the long one as their normal form. */
  lemma CommandFilterTexts(device: string)
    requires SlashFree(device)
    ensures NormalizeTopic("c//" + device + "/q/#") == "command//" + device + "/req/#"
    ensures NormalizeTopic("c//" + device + "/req/#") == "command//" + device + "/req/#"
    ensures NormalizeTopic("command//" + device + "/q/#") == "command//" + device + "/req/#"
    ensures NormalizeTopic("command//" + device + "/req/#") == "command//" + device + "/req/#"
  {
    CommandFilterNormal(false, false, device);
    CommandFilterNormal(false, true, device);
    CommandFilterNormal(true, false, device);
    CommandFilterNormal(true, true, device);
  }

  /** Two command filters have the same normal form exactly when they name the
      same device, whichever of the short and long names each of them uses. */
  lemma CommandFiltersAgree(p1: bool, e1: bool, d1: string, p2: bool, e2: bool, d2: string)
    requires SlashFree(d1) && SlashFree(d2)
    ensures NormalizeTopic(CommandFilter(p1, e1, d1)) == NormalizeTopic(CommandFilter(p2, e2, d2)) <==> d1 == d2
  {
    CommandFilterNormal(p1, e1, d1);
    CommandFilterNormal(p2, e2, d2);
    var n1 := LONG_COMMAND + d1 + LONG_REQUEST_END;
    var n2 := LONG_COMMAND + d2 + LONG_REQUEST_END;
    assert n1[9..9 + |d1|] == d1;
    assert |n1| == |n2| ==> n2[9..9 + |d1|] == d2;
  }

  // ---------- Parts of a command topic ----------

  datatype CmdTopic = CmdTopic(kind: string, device: string, suffix: string)

  /** Go's `s[lo:hi]`: out-of-range bounds panic. */
  function Slice(s: string, lo: int, hi: int): Option<string> {
    if 0 <= lo <= hi <= |s| then Some(s[lo..hi]) else None
  }

  /** What both branches of ParseCmdTopic do, after a prefix of `start`
      characters and for a kind of `width` characters. */
  function ParseAfter(topic: string, start: nat, width: nat): Option<CmdTopic>
    requires start <= |topic|
  {
    var end := start + IndexOf(topic[start..], '/');
    var kind := Slice(topic, end + 1, end + 1 + width);
    var device := Slice(topic, start, end);
    var suffix := Slice(topic, end + 2 + width, |topic|);
    if kind.None? || device.None? || suffix.None? then None
    else Some(CmdTopic(kind.value, device.value, suffix.value))
  }

  function ParseCmdTopic(topic: string): Option<CmdTopic> {
    if HasPrefix(topic, SHORT_COMMAND) then ParseAfter(topic, 3, 1)
    else if HasPrefix(topic, LONG_COMMAND) then ParseAfter(topic, 9, 3)
    else Some(CmdTopic("", "", ""))
  }

  /** What is read when the first slash after the prefix stands at `end`. */
  lemma ParseAfterAt(topic: string, start: nat, end: nat, width: nat)
    requires start <= end && end + 2 + width <= |topic|
    requires topic[end] == '/' && SlashFree(topic[start..end])
    ensures ParseAfter(topic, start, width)
            == Some(CmdTopic(topic[end + 1..end + 1 + width], topic[start..end], topic[end + 2 + width..]))
  {
    hide IndexOf, SlashFree;
    SlashAt(topic, start, end);
    ToTheEnd(topic, end + 2 + width);
  }

  lemma ToTheEnd(s: string, i: nat)
    requires i <= |s|
    ensures s[i..|s|] == s[i..]
  {
  }

  lemma SlashAt(topic: string, start: nat, end: nat)
    requires start <= end < |topic| && topic[end] == '/' && SlashFree(topic[start..end])
    ensures IndexOf(topic[start..], '/') == end - start
  {
    var rest := topic[start..];
    assert rest[..end - start] == topic[start..end];
    assert forall j :: 0 <= j < end - start ==> rest[j] == rest[..end - start][j];
    FirstIs(rest, '/', end - start);
  }

  /** The middle of a concatenation. */
  lemma Cut(x: string, y: string, z: string)
    ensures (x + y + z)[|x|..|x| + |y|] == y
  {
  }

  /** A topic of the form prefix device/kind?suffix, with a slash-free device, is
      read back in its parts; any character may stand where `?` does. */
  lemma ParseAfterForm(prefix: string, device: string, kind: string, c: char, suffix: string)
    requires SlashFree(device)
    ensures ParseAfter(prefix + device + "/" + kind + [c] + suffix, |prefix|, |kind|) == Some(CmdTopic(kind, device, suffix))
  {
    hide ParseAfter;
    var topic := prefix + device + "/" + kind + [c] + suffix;
    FormPieces(prefix, device, kind, c, suffix);
    ParseAfterAt(topic, |prefix|, |prefix| + |device|, |kind|);
  }

  lemma FormPieces(prefix: string, device: string, kind: string, c: char, suffix: string)
    ensures var topic, end := prefix + device + "/" + kind + [c] + suffix, |prefix| + |device|;
            && end + 2 + |kind| <= |topic| && topic[end] == '/'
            && topic[|prefix|..end] == device
            && topic[end + 1..end + 1 + |kind|] == kind
            && topic[end + 2 + |kind|..] == suffix
  {
    var topic := prefix + device + "/" + kind + [c] + suffix;
    assert topic == prefix + device + ("/" + kind + [c] + suffix);
    Cut(prefix, device, "/" + kind + [c] + suffix);
    assert topic == (prefix + device + "/") + kind + ([c] + suffix);
    Cut(prefix + device + "/", kind, [c] + suffix);
  }

  /** A string is its pieces. */
  lemma Pieces(s: string, i: nat, j: nat, k: nat)
    requires i <= j < k < |s|
    ensures s == s[..i] + s[i..j] + [s[j]] + s[j + 1..k] + [s[k]] + s[k + 1..]
  {
  }

  /** What a successful parse has found. */
  lemma ParseAfterFound(topic: string, start: nat, width: nat) returns (end: nat)
    requires start <= |topic| && ParseAfter(topic, start, width).Some?
    ensures start <= end && end + 2 + width <= |topic|
    ensures topic[end] == '/' && SlashFree(topic[start..end])
    ensures ParseAfter(topic, start, width).value
            == CmdTopic(topic[end + 1..end + 1 + width], topic[start..end], topic[end + 2 + width..])
  {
    var i := IndexOf(topic[start..], '/');
    end := start + i;
    assert topic[start..end] == topic[start..][..i];
    assert topic[end] == topic[start..][i];
    ToTheEnd(topic, end + 2 + width);
  }

  /** No other topic parses: the parts that are read make up the topic. */
  lemma ParseAfterParts(topic: string, start: nat, width: nat) returns (c: char)
    requires start <= |topic| && ParseAfter(topic, start, width).Some?
    ensures var parts := ParseAfter(topic, start, width).value;
            && SlashFree(parts.device) && |parts.kind| == width
            && topic == topic[..start] + parts.device + "/" + parts.kind + [c] + parts.suffix
  {
    var end := ParseAfterFound(topic, start, width);
    c := topic[end + 1 + width];
    Pieces(topic, start, end, end + 1 + width);
    assert [topic[end]] == "/";
  }

  function ShortTopic(device: string, kind: string, suffix: string): string {
    SHORT_COMMAND + device + "/" + kind + "/" + suffix
  }

  function LongTopic(device: string, kind: string, suffix: string): string {
    LONG_COMMAND + device + "/" + kind + "/" + suffix
  }

  /** The texts of command topics. */
  lemma CommandTexts(device: string, suffix: string)
    ensures LongTopic(device, "req", suffix) == "command//" + device + "/req/" + suffix
    ensures LongTopic(device, "res", suffix) == "command//" + device + "/res/" + suffix
    ensures ShortTopic(device, "q", suffix) == "c//" + device + "/q/" + suffix
    ensures ShortTopic(device, "s", suffix) == "c//" + device + "/s/" + suffix
  {
    BetweenSlashes("command//" + device, "req", "/req/");
    BetweenSlashes("command//" + device, "res", "/res/");
    BetweenSlashes("c//" + device, "q", "/q/");
    BetweenSlashes("c//" + device, "s", "/s/");
  }

  lemma BetweenSlashes(start: string, kind: string, text: string)
    requires "/" + kind + "/" == text
    ensures start + "/" + kind + "/" == start + text
  {
    assert start + "/" + kind + "/" == start + ("/" + kind + "/");
  }

  /** A command topic that follows the format is read back in its three parts. */
  lemma ParseCommand(device: string, kind: string, suffix: string)
    requires SlashFree(device)
    ensures |kind| == 1 ==> ParseCmdTopic(ShortTopic(device, kind, suffix)) == Some(CmdTopic(kind, device, suffix))
    ensures |kind| == 3 ==> ParseCmdTopic(LongTopic(device, kind, suffix)) == Some(CmdTopic(kind, device, suffix))
  {
    var short := ShortTopic(device, kind, suffix);
    var long := LongTopic(device, kind, suffix);
    assert HasPrefix(short, SHORT_COMMAND) && HasPrefix(long, LONG_COMMAND) && long[1] == 'o';
    assert ['/'] == "/";
    ParseAfterForm(SHORT_COMMAND, device, kind, '/', suffix);
    ParseAfterForm(LONG_COMMAND, device, kind, '/', suffix);
  }

  /** Builds the topic of the reply to a request received on `inboxTopic`. */
  function ResponseStatusTopic(inboxTopic: string, status: nat): Option<string> {
    match ParseCmdTopic(inboxTopic)
    case None => None
    case Some(parts) =>
      match Slice(parts.suffix, 0, IndexOf(parts.suffix, '/'))
      case None => None
      case Some(id) => Some(LongTopic(parts.device, "res", id + "/" + Decimal(status)))
  }

  /** The reply goes to the device and the request that were asked. */
  lemma ResponseAnswersRequest(device: string, id: string, rest: string, status: nat)
    requires SlashFree(device) && SlashFree(id)
    ensures var reply := "command//" + device + "/res/" + (id + "/" + Decimal(status));
            && ResponseStatusTopic("command//" + device + "/req/" + (id + "/" + rest), status) == Some(reply)
            && ParseCmdTopic(reply) == Some(CmdTopic("res", device, id + "/" + Decimal(status)))
  {
    CommandTexts(device, id + "/" + rest);
    CommandTexts(device, id + "/" + Decimal(status));
    ParseCommand(device, "req", id + "/" + rest);
    FirstSlash(id, rest);
    ParseCommand(device, "res", id + "/" + Decimal(status));
  }

  /** The texts that are read back, in full. */
  lemma ParseTexts(device: string, suffix: string)
    requires SlashFree(device)
    ensures ParseCmdTopic("command//" + device + "/req/" + suffix) == Some(CmdTopic("req", device, suffix))
    ensures ParseCmdTopic("command//" + device + "/res/" + suffix) == Some(CmdTopic("res", device, suffix))
    ensures ParseCmdTopic("c//" + device + "/q/" + suffix) == Some(CmdTopic("q", device, suffix))
    ensures ParseCmdTopic("c//" + device + "/s/" + suffix) == Some(CmdTopic("s", device, suffix))
  {
    CommandTexts(device, suffix);
    ParseCommand(device, "req", suffix);
    ParseCommand(device, "res", suffix);
    ParseCommand(device, "q", suffix);
    ParseCommand(device, "s", suffix);
  }

  // ---------- Command timeouts ----------

  const TWO_63: int := 0x8000_0000_0000_0000
  const TWO_64: int := 0x1_0000_0000_0000_0000

  /** The int64 value that a product wraps to. */
  function Wrap64(x: int): (w: int)
    ensures -TWO_63 <= w < TWO_63
    ensures -TWO_63 <= x < TWO_63 ==> w == x
  {
    (x + TWO_63) % TWO_64 - TWO_63
  }

  predicate IsDigit(c: char) {
    '0' <= c <= '9'
  }

  /** The value of a non-empty string of decimal digits. */
  function Digits(s: string): Option<nat> {
    if s == [] || !IsDigit(s[|s| - 1]) then None
    else
      var d := (s[|s| - 1] as int - '0' as int) as nat;
      if |s| == 1 then Some(d)
      else match Digits(s[..|s| - 1])
        case Some(v) => Some(10 * v + d)
        case None => None
  }

  /** The value of an optional sign and decimal digits. */
  function Number(s: string): Option<int> {
    var signed := s != [] && (s[0] == '+' || s[0] == '-');
    match Digits(if signed then s[1..] else s)
    case None => None
    case Some(v) => Some(if signed && s[0] == '-' then -(v as int) else v)
  }

  predicate InInt64(x: int) {
    -TWO_63 <= x < TWO_63
  }

  /** strconv.Atoi: a number that is an int64 value. */
  function Atoi(s: string): (r: Option<int>)
    ensures r.Some? ==> InInt64(r.value)
  {
    match Number(s)
    case Some(x) => if InInt64(x) then Some(x) else None
    case None => None
  }

  /** A number of units as a time.Duration, or -1 when it is not a number. */
  function Scaled(number: string, unit: int): int {
    match Atoi(number)
    case Some(i) => Wrap64(i * unit)
    case None => -1
  }

  predicate InTimeoutRange(t: int) {
    0 <= t < HOUR
  }

  function OrMinute(t: int): int {
    if InTimeoutRange(t) then t else 60 * SECOND
  }

  /** The timeout in nanoseconds. */
  function ParseTimeout(timeout: string): Option<int> {
    var l := |timeout|;
    if l == 0 then Some(60 * SECOND)
    else if timeout[l - 1] == 's' && l == 1 then None
    else
      var t :=
        if timeout[l - 1] == 'm' then Scaled(timeout[..l - 1], MINUTE)
        else if timeout[l - 1] == 's' then
          if timeout[l - 2] == 'm' then Scaled(timeout[..l - 2], MILLISECOND) else Scaled(timeout[..l - 1], SECOND)
        else Scaled(timeout, SECOND);
      Some(OrMinute(t))
  }

  /** Reading a timeout panics for the one string "s" and otherwise gives a
      duration below an hour, also where the multiplication wraps. */
  lemma TimeoutRange(timeout: string)
    ensures ParseTimeout(timeout).None? <==> timeout == "s"
    ensures timeout != "s" ==> 0 <= ParseTimeout(timeout).value < HOUR
  {
    if |timeout| == 1 && timeout[0] == 's' {
      assert timeout == "s";
    }
  }

  /** The decimal notation of a number. */
  function Decimal(n: nat): (s: string)
    ensures s != []
  {
    var d := ('0' as int + n % 10) as char;
    if n < 10 then [d] else Decimal(n / 10) + [d]
  }

  lemma {:induction false} DigitsDecimal(n: nat)
    ensures Digits(Decimal(n)) == Some(n)
    ensures forall k :: 0 <= k < |Decimal(n)| ==> IsDigit(Decimal(n)[k])
  {
    var s := Decimal(n);
    if n >= 10 {
      DigitsDecimal(n / 10);
      assert s[..|s| - 1] == Decimal(n / 10);
    }
  }

  /** Decimal notation is read back, with a sign and without. */
  lemma NumberDecimal(n: nat)
    ensures Number(Decimal(n)) == Number("+" + Decimal(n)) == Some(n as int)
    ensures Number("-" + Decimal(n)) == Some(-(n as int))
  {
    DigitsDecimal(n);
    assert IsDigit(Decimal(n)[0]);
    assert ("+" + Decimal(n))[1..] == Decimal(n) && ("-" + Decimal(n))[1..] == Decimal(n);
  }

  /** What a timeout of `n` units should come to: what is not a time below an hour
      counts as a minute. */
  function Intended(n: int, unit: nat): Option<int> {
    Some(if 0 <= n * unit < HOUR then n * unit else MINUTE)
  }

  /** The product of 64 bits that a timeout of `n` units is computed as falls in
      range for the intended timeout only, or out of range, or on a minute. */
  predicate ProductFits(n: int, unit: nat) {
    !InInt64(n) || 0 <= n * unit < HOUR || (n * unit) % TWO_64 >= HOUR || (n * unit) % TWO_64 == MINUTE
  }

  /** Whatever number a text holds, with its unit it is read as intended exactly
      when its product fits. */
  lemma TimeoutUnits(text: string, n: int)
    requires Number(text) == Some(n)
    ensures ParseTimeout(text + "m") == Intended(n, MINUTE) <==> ProductFits(n, MINUTE)
    ensures ParseTimeout(text + "s") == Intended(n, SECOND) <==> ProductFits(n, SECOND)
    ensures ParseTimeout(text) == Intended(n, SECOND) <==> ProductFits(n, SECOND)
    ensures ParseTimeout(text + "ms") == Intended(n, MILLISECOND) <==> ProductFits(n, MILLISECOND)
  {
    hide ParseTimeout, Intended, ProductFits, Scaled;
    NumberEnds(text);
    TimeoutOf(text);
    ReadAsIntended(text, n, MINUTE);
    ReadAsIntended(text, n, SECOND);
    ReadAsIntended(text, n, MILLISECOND);
  }

  /** A timeout that is missing, or that holds no number, counts as a minute. */
  lemma TimeoutDefault(text: string)
    ensures ParseTimeout("") == Some(60_000_000_000)
    ensures Number(text).None? ==> ParseTimeout(text + "m") == Some(60_000_000_000)
    ensures Number(text).None? && text != "" && text[|text| - 1] !in "ms" ==> ParseTimeout(text) == Some(60_000_000_000)
    ensures Number(text).None? && text != "" && text[|text| - 1] != 'm' ==> ParseTimeout(text + "s") == Some(60_000_000_000)
    ensures Number(text).None? ==> ParseTimeout(text + "ms") == Some(60_000_000_000)
  {
    DropEnd(text, "m");
    DropEnd(text, "s");
    DropEnd(text, "ms");
  }

  /** A number of units below an hour is that many nanoseconds. */
  lemma TimeoutNanoseconds(text: string, n: int)
    requires Number(text) == Some(n)
    ensures 0 <= n < 60 ==> ParseTimeout(text + "m") == Some(n * 60_000_000_000)
    ensures 0 <= n < 3_600 ==> ParseTimeout(text + "s") == ParseTimeout(text) == Some(n * 1_000_000_000)
    ensures 0 <= n < 3_600_000 ==> ParseTimeout(text + "ms") == Some(n * 1_000_000)
  {
    hide ParseTimeout, Number;
    TimeoutUnits(text, n);
  }

  lemma NumberEnds(text: string)
    requires Number(text).Some?
    ensures text != [] && IsDigit(text[|text| - 1])
  {
  }

  lemma ReadAsIntended(text: string, n: int, unit: nat)
    requires unit >= 1 && Number(text) == Some(n)
    ensures Some(OrMinute(Scaled(text, unit))) == Intended(n, unit) <==> ProductFits(n, unit)
  {
    hide Number, Wrap64, OrMinute;
    ComparedTo(n * unit);
    NoMinuteBelow();
    if !InInt64(n) {
      FarOut(n, unit);
    }
  }

  /** Multiplying does not bring a number back. */
  lemma FarOut(n: int, unit: nat)
    requires unit >= 1
    ensures n >= TWO_63 ==> n * unit >= HOUR
    ensures n < 0 ==> n * unit < 0
  {
    if n >= TWO_63 {
      assert n * unit >= n;
    }
  }

  lemma NoMinuteBelow()
    ensures OrMinute(-1) == MINUTE && HOUR < TWO_63
  {
  }

  lemma ComparedTo(x: int)
    ensures OrMinute(Wrap64(x)) == (if 0 <= x < HOUR then x else MINUTE)
            <==> 0 <= x < HOUR || x % TWO_64 >= HOUR || x % TWO_64 == MINUTE
  {
    WrapInRange(x);
  }

  lemma WrapInRange(x: int)
    ensures InTimeoutRange(Wrap64(x)) <==> x % TWO_64 < HOUR
    ensures InTimeoutRange(Wrap64(x)) ==> Wrap64(x) == x % TWO_64
    ensures 0 <= x < HOUR ==> x % TWO_64 == x
  {
    var q, r := x / TWO_64, x % TWO_64;
    assert x + TWO_63 == q * TWO_64 + (r + TWO_63);
    if r < TWO_63 {
      Remainder(q, r + TWO_63);
    } else {
      Remainder(q + 1, r - TWO_63);
    }
  }

  lemma Remainder(q: int, r: nat)
    requires r < TWO_64
    ensures (q * TWO_64 + r) % TWO_64 == r
  {
  }

  /** What is read from a number that ends in a digit, with each unit. */
  lemma TimeoutOf(number: string)
    requires number != [] && IsDigit(number[|number| - 1])
    ensures ParseTimeout(number + "m") == Some(OrMinute(Scaled(number, MINUTE)))
    ensures ParseTimeout(number + "s") == ParseTimeout(number) == Some(OrMinute(Scaled(number, SECOND)))
    ensures ParseTimeout(number + "ms") == Some(OrMinute(Scaled(number, MILLISECOND)))
  {
    DropEnd(number, "m");
    DropEnd(number, "s");
    DropEnd(number, "ms");
  }

  lemma DropEnd(s: string, end: string)
    ensures (s + end)[..|s|] == s
    ensures forall j :: 0 <= j < |end| ==> (s + end)[|s| + j] == end[j]
    ensures forall j :: 0 <= j < |s| ==> (s + end)[j] == s[j]
  {
  }

  /** A wrapped product can land in range: these many minutes count as some 26 and
      33 seconds, not as the minute that stands for what is out of range. */
  lemma TimeoutWraps()
    ensures 26 * SECOND < ParseTimeout("307445735" + "m").value < 27 * SECOND
    ensures 33 * SECOND < ParseTimeout("-307445734" + "m").value < 34 * SECOND
  {
    assert Digits("3") == Some(3);
    hide Digits;
    NextDigit("3", 3, '0', "30");
    NextDigit("30", 30, '7', "307");
    NextDigit("307", 307, '4', "3074");
    NextDigit("3074", 3074, '4', "30744");
    NextDigit("30744", 30744, '5', "307445");
    NextDigit("307445", 307445, '7', "3074457");
    NextDigit("3074457", 3074457, '3', "30744573");
    NextDigit("30744573", 30744573, '5', "307445735");
    NextDigit("30744573", 30744573, '4', "307445734");
    assert "-307445734"[1..] == "307445734";
    ReadMinutes("307445735", 307445735);
    ReadMinutes("-307445734", -307445734);
  }

  lemma NextDigit(s: string, n: nat, c: char, t: string)
    requires IsDigit(c) && s != [] && Digits(s) == Some(n) && t == s + [c]
    ensures Digits(t) == Some(10 * n + (c as int - '0' as int))
  {
    assert t[..|t| - 1] == s;
  }

  lemma ReadMinutes(text: string, n: int)
    requires Number(text) == Some(n) && InInt64(n)
    ensures ParseTimeout(text + "m") == Some(OrMinute(Wrap64(n * MINUTE)))
  {
    NumberEnds(text);
    TimeoutOf(text);
  }
}
