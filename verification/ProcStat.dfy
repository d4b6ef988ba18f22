/** The two field parsers of the benchmark sampler, over the text of /proc/<pid>/stat and
    /proc/<pid>/status. */
module ProcStat {
  import opened Wire

  /** The characters with the White_Space property. */
  predicate IsSpace(c: char) {
    var n := c as int;
    || 9 <= n <= 13 || n == 32 || n == 0x85 || n == 0xA0 || n == 0x1680 || 0x2000 <= n <= 0x200A
    || n == 0x2028 || n == 0x2029 || n == 0x202F || n == 0x205F || n == 0x3000
  }

  /** The 25 of them, one by one. */
  lemma WhiteSpaceTable(c: char)
    ensures IsSpace(c) <==>
            (c as int) in {0x09, 0x0A, 0x0B, 0x0C, 0x0D, 0x20, 0x85, 0xA0, 0x1680, 0x2000, 0x2001, 0x2002, 0x2003,
                           0x2004, 0x2005, 0x2006, 0x2007, 0x2008, 0x2009, 0x200A, 0x2028, 0x2029, 0x202F, 0x205F,
                           0x3000}
  {
  }

  predicate IsDigit(c: char) {
    '0' <= c <= '9'
  }

  /** Where a character occurs last. */
  function LastIndex(s: string, c: char): (r: Option<nat>)
    ensures r.None? <==> c !in s
    ensures r.Some? ==> r.value < |s| && s[r.value] == c && c !in s[r.value + 1..]
  {
    if s == [] then None
    else if s[|s| - 1] == c then Some(|s| - 1)
    else
      var front := s[..|s| - 1];
      assert s == front + [s[|s| - 1]];
      var r := LastIndex(front, c);
      assert r.Some? ==> s[r.value + 1..] == front[r.value + 1..] + [s[|s| - 1]];
      r
  }

  /** The length of the run of other characters at the front. */
  function TokenLength(s: string): (n: nat)
    ensures n <= |s|
    ensures s != [] && !IsSpace(s[0]) ==> n > 0
  {
    if s == [] || IsSpace(s[0]) then 0 else 1 + TokenLength(s[1..])
  }

  function SplitSpace(s: string): seq<string>
    decreases |s|
  {
    if s == [] then []
    else if IsSpace(s[0]) then SplitSpace(s[1..])
    else [s[..TokenLength(s)]] + SplitSpace(s[TokenLength(s)..])
  }

  predicate AllDigits(s: string) {
    forall i :: 0 <= i < |s| ==> IsDigit(s[i])
  }

  function Value(s: string): nat
    requires AllDigits(s)
  {
    if s == [] then 0 else Value(s[..|s| - 1]) * 10 + (s[|s| - 1] as int - '0' as int)
  }

  /** Reading an unsigned 64-bit number: an optional plus sign, then digits, and no overflow. */
  function ParseU64(s: string): Option<U64> {
    var t := if s != [] && s[0] == '+' then s[1..] else s;
    if t == [] || !AllDigits(t) || Value(t) >= U64_SIZE then None else Some(Value(t))
  }

  /** The sum of fields 11 and 12 of a tail, in 64-bit arithmetic. */
  function SumTimes(fields: seq<string>): Option<U64> {
    if |fields| < 13 then None
    else
      match (ParseU64(fields[11]), ParseU64(fields[12]))
      case (Some(utime), Some(stime)) => Some((utime + stime) % U64_SIZE)
      case _ => None
  }

  /** The tail starts two bytes after the last closing parenthesis, if that is a character
      boundary of the text. */
  function ReadJiffies(s: string): Option<U64> {
    match LastIndex(s, ')')
    case None => None
    case Some(close) =>
      if close + 1 < |s| && (s[close + 1] as int) < 128 then SumTimes(SplitSpace(s[close + 2..])) else None
  }

  // ----- Printing -----

  function Decimal(n: nat): (s: string)
    ensures s != [] && AllDigits(s)
  {
    var last := [('0' as int + n % 10) as char];
    if n < 10 then last else Decimal(n / 10) + last
  }

  lemma {:induction false} DecimalValue(n: nat)
    ensures Value(Decimal(n)) == n
  {
    if n >= 10 {
      DecimalValue(n / 10);
      var s := Decimal(n);
      assert s[..|s| - 1] == Decimal(n / 10);
    }
  }

  function Zeros(n: nat): (s: string)
    ensures |s| == n && AllDigits(s)
  {
    seq(n, _ => '0')
  }

  lemma {:induction false} ValueOfPadded(z: nat, d: string)
    requires AllDigits(d)
    ensures AllDigits(Zeros(z) + d) && Value(Zeros(z) + d) == Value(d)
    decreases |d|, z
  {
    var s := Zeros(z) + d;
    if d != [] {
      assert s[..|s| - 1] == Zeros(z) + d[..|d| - 1];
      ValueOfPadded(z, d[..|d| - 1]);
    } else if z > 0 {
      assert s[..|s| - 1] == Zeros(z - 1) + d;
      ValueOfPadded(z - 1, d);
    }
  }

  lemma ParseDigits(plus: bool, d: string)
    requires d != [] && AllDigits(d)
    ensures ParseU64((if plus then "+" else "") + d)
         == if Value(d) < 18446744073709551616 then Some(Value(d)) else None
  {
    hide Value;
    assert IsDigit(d[0]);
    if plus {
      assert ("+" + d)[1..] == d;
    } else {
      assert "" + d == d;
    }
  }

  /** Reading a printed number: any leading zeros and a plus sign make no difference, and it fits
      in 64 bits or is refused. */
  lemma ParsePrinted(plus: bool, z: nat, n: nat)
    ensures ParseU64((if plus then "+" else "") + (Zeros(z) + Decimal(n)))
         == if n < 18446744073709551616 then Some(n) else None
  {
    ValueOfPadded(z, Decimal(n));
    DecimalValue(n);
    hide ParseU64, Value, Decimal, Zeros;
    ParseDigits(plus, Zeros(z) + Decimal(n));
  }

  lemma DecimalSnoc(n: nat, c: char)
    requires IsDigit(c)
    ensures var m := n * 10 + (c as int - '0' as int); Decimal(m) == if n == 0 then [c] else Decimal(n) + [c]
  {
    var m := n * 10 + (c as int - '0' as int);
    assert m / 10 == n && m % 10 == c as int - '0' as int;
  }

  lemma ZerosSnoc(z: nat)
    ensures Zeros(z) + Decimal(0) == Zeros(z + 1)
  {
  }

  lemma PrintedSnoc(z: nat, n: nat, c: char) returns (z': nat)
    requires IsDigit(c)
    ensures Zeros(z) + Decimal(n) + [c] == Zeros(z') + Decimal(n * 10 + (c as int - '0' as int))
  {
    hide Decimal, Zeros;
    DecimalSnoc(n, c);
    ZerosSnoc(z);
    z' := if n == 0 then z + 1 else z;
    assert Zeros(z) + Decimal(n) + [c] == Zeros(z) + (Decimal(n) + [c]);
  }

  /** Digits are a printed number with leading zeros. */
  lemma {:induction false} DigitsArePrinted(d: string) returns (z: nat)
    requires d != [] && AllDigits(d)
    ensures d == Zeros(z) + Decimal(Value(d))
  {
    hide Decimal, Zeros;
    var front, last := d[..|d| - 1], d[|d| - 1];
    assert d == front + [last] && IsDigit(last);
    if front == [] {
      z := 0;
      DecimalSnoc(0, last);
    } else {
      z := DigitsArePrinted(front);
      z := PrintedSnoc(z, Value(front), last);
    }
  }

  /** And nothing else is read: a text gives a number only if it is that number printed. */
  lemma ParsedIsPrinted(s: string) returns (plus: bool, z: nat)
    requires ParseU64(s).Some?
    ensures s == (if plus then "+" else "") + (Zeros(z) + Decimal(ParseU64(s).value))
  {
    hide Value, Decimal, Zeros;
    plus := s[0] == '+';
    var d := if plus then s[1..] else s;
    z := DigitsArePrinted(d);
    assert s == (if plus then "+" else "") + d;
    hide ParseU64;
  }

  lemma ParseDecimal(n: nat)
    ensures ParseU64(Decimal(n)) == if n < 18446744073709551616 then Some(n) else None
  {
    ParsePrinted(false, 0, n);
    assert "" + (Zeros(0) + Decimal(n)) == Decimal(n);
    hide *;
  }

  predicate IsToken(t: string) {
    t != [] && forall i :: 0 <= i < |t| ==> !IsSpace(t[i])
  }

  lemma DecimalIsToken(n: nat)
    ensures IsToken(Decimal(n))
  {
    var s := Decimal(n);
    forall i | 0 <= i < |s| ensures !IsSpace(s[i]) {
      assert IsDigit(s[i]);
    }
  }

  lemma {:induction false} TokenThenSpace(t: string, rest: string)
    requires forall i :: 0 <= i < |t| ==> !IsSpace(t[i])
    requires rest == [] || IsSpace(rest[0])
    ensures TokenLength(t + rest) == |t|
  {
    if t == [] {
      assert t + rest == rest;
    } else {
      assert (t + rest)[1..] == t[1..] + rest;
      TokenThenSpace(t[1..], rest);
    }
  }

  lemma SplitFirst(t: string, rest: string)
    requires IsToken(t) && rest != [] && IsSpace(rest[0])
    ensures SplitSpace(t + rest) == [t] + SplitSpace(rest)
  {
    TokenThenSpace(t, rest);
    assert (t + rest)[..|t|] == t && (t + rest)[|t|..] == rest;
  }

  predicate AllSpace(s: string) {
    forall i :: 0 <= i < |s| ==> IsSpace(s[i])
  }

  predicate AreGaps(gaps: seq<string>) {
    forall i :: 0 <= i < |gaps| ==> gaps[i] != [] && AllSpace(gaps[i])
  }

  /** Fields laid out with white space after each, and perhaps one more without. */
  function Laid(fields: seq<string>, gaps: seq<string>, last: string): string
    requires |gaps| == |fields|
  {
    if fields == [] then last else fields[0] + (gaps[0] + Laid(fields[1..], gaps[1..], last))
  }

  predicate AreTokens(fields: seq<string>) {
    forall i :: 0 <= i < |fields| ==> IsToken(fields[i])
  }

  lemma {:induction false} SkipGap(gap: string, rest: string)
    requires AllSpace(gap)
    ensures SplitSpace(gap + rest) == SplitSpace(rest)
  {
    if gap == [] {
      assert gap + rest == rest;
    } else {
      assert (gap + rest)[1..] == gap[1..] + rest;
      SkipGap(gap[1..], rest);
    }
  }

  function Ended(last: string): seq<string> {
    if last == [] then [] else [last]
  }

  /** Splitting finds the fields of any layout, with white space of any kind and length between
      them, and after the last or not. */
  lemma {:induction false} SplitLaid(fields: seq<string>, gaps: seq<string>, last: string)
    requires AreTokens(fields) && |gaps| == |fields| && AreGaps(gaps) && (last == [] || IsToken(last))
    ensures SplitSpace(Laid(fields, gaps, last)) == fields + Ended(last)
    decreases |fields|
  {
    hide SplitSpace;
    if fields == [] {
      SplitLast(last);
    } else {
      var more := Laid(fields[1..], gaps[1..], last);
      assert gaps[0] != [] && AllSpace(gaps[0]);
      SplitFirst(fields[0], gaps[0] + more);
      SkipGap(gaps[0], more);
      SplitLaid(fields[1..], gaps[1..], last);
    }
  }

  lemma SplitLast(t: string)
    requires t == [] || IsToken(t)
    ensures SplitSpace(t) == Ended(t)
  {
    TokenThenSpace(t, []);
    assert t + [] == t;
  }

  /** And every text is such a layout, after some white space or none, so splitting is known for
      every text. */
  lemma {:induction false} EveryTextIsLaid(s: string)
    returns (lead: string, fields: seq<string>, gaps: seq<string>, last: string)
    ensures AllSpace(lead) && AreTokens(fields) && |gaps| == |fields| && AreGaps(gaps)
    ensures last == [] || IsToken(last)
    ensures s == lead + Laid(fields, gaps, last)
    ensures SplitSpace(s) == fields + Ended(last)
    decreases |s|
  {
    lead, fields, gaps, last := LayOut(s);
    hide SplitSpace, Laid;
    SkipGap(lead, Laid(fields, gaps, last));
    SplitLaid(fields, gaps, last);
  }

  lemma {:induction false} LayOut(s: string)
    returns (lead: string, fields: seq<string>, gaps: seq<string>, last: string)
    ensures AllSpace(lead) && AreTokens(fields) && |gaps| == |fields| && AreGaps(gaps)
    ensures last == [] || IsToken(last)
    ensures s == lead + Laid(fields, gaps, last)
    decreases |s|
  {
    lead, fields, gaps, last := [], [], [], s;
    if s != [] && IsSpace(s[0]) {
      lead, fields, gaps, last := LayOut(s[1..]);
      lead := [s[0]] + lead;
      assert s == [s[0]] + s[1..];
    } else if s != [] {
      var n := TokenLength(s);
      TokenIsToken(s);
      if n < |s| {
        var more, rest := [], s[n..];
        lead, fields, gaps, more := LayOut(rest);
        LaidStarts(fields, gaps, more);
        last := more;
        fields, gaps, lead := [s[..n]] + fields, [lead] + gaps, [];
        assert s == s[..n] + rest;
      }
    }
  }

  lemma {:induction false} TokenIsToken(s: string)
    ensures forall i :: 0 <= i < TokenLength(s) ==> !IsSpace(s[i])
    ensures TokenLength(s) < |s| ==> IsSpace(s[TokenLength(s)])
  {
    if s != [] && !IsSpace(s[0]) {
      TokenIsToken(s[1..]);
      assert forall i :: 0 < i < |s| ==> s[i] == s[1..][i - 1];
    }
  }

  lemma LaidStarts(fields: seq<string>, gaps: seq<string>, last: string)
    requires AreTokens(fields) && |gaps| == |fields| && (last == [] || IsToken(last))
    ensures var s := Laid(fields, gaps, last); s != [] ==> !IsSpace(s[0])
  {
    if fields != [] { assert IsToken(fields[0]); }
  }

  /** A line of /proc/<pid>/stat: the process name may hold anything. */
  function StatLine(pid: nat, comm: string, tail: string): string {
    Decimal(pid) + " (" + comm + ") " + tail
  }

  /** What the parser does with any text: it needs a closing parenthesis, then one character of
      a single byte, whichever, and then looks at the rest only. */
  lemma TailDecides(front: string, x: char, tail: string)
    requires x != ')' && ')' !in tail
    ensures ReadJiffies(front + [')', x] + tail) == if (x as int) < 128 then SumTimes(SplitSpace(tail)) else None
    ensures ReadJiffies(front + [')']) == None
    ensures ReadJiffies(tail) == None
  {
    var s, k := front + [')', x] + tail, |front|;
    assert s[k] == ')' && s[k + 1] == x && s[k + 2..] == tail && s[k + 1..] == [x] + tail;
    IsLastIndex(s, ')', k);
    IsLastIndex(front + [')'], ')', k);
  }

  /** On a stat line it skips the name, whatever that is made of. */
  lemma NameIsSkipped(pid: nat, comm: string, tail: string)
    requires ')' !in tail
    ensures ReadJiffies(StatLine(pid, comm, tail)) == SumTimes(SplitSpace(tail))
  {
    hide ReadJiffies, SumTimes, SplitSpace;
    var front := Decimal(pid) + " (" + comm;
    assert StatLine(pid, comm, tail) == front + [')', ' '] + tail;
    TailDecides(front, ' ', tail);
  }

  lemma IsLastIndex(s: string, c: char, k: nat)
    requires k < |s| && s[k] == c && c !in s[k + 1..]
    ensures LastIndex(s, c) == Some(k)
  {
  }

  lemma {:induction false} LaidHasNo(fields: seq<string>, gaps: seq<string>, last: string, c: char)
    requires |gaps| == |fields| && AreGaps(gaps) && !IsSpace(c) && forall i :: 0 <= i < |fields| ==> c !in fields[i]
    requires c !in last
    ensures c !in Laid(fields, gaps, last)
  {
    if fields != [] {
      LaidHasNo(fields[1..], gaps[1..], last, c);
      assert AllSpace(gaps[0]);
      assert c !in gaps[0];
    }
  }

  /** The fields of a stat line after the name: tokens without a closing parenthesis. */
  ghost predicate AreFields(fields: seq<string>, gaps: seq<string>) {
    AreTokens(fields) && |gaps| == |fields| && AreGaps(gaps) && forall i :: 0 <= i < |fields| ==> ')' !in fields[i]
  }

  lemma FieldsRead(pid: nat, comm: string, fields: seq<string>, gaps: seq<string>)
    requires AreFields(fields, gaps)
    ensures ReadJiffies(StatLine(pid, comm, Laid(fields, gaps, []))) == SumTimes(fields)
  {
    LaidHasNo(fields, gaps, [], ')');
    hide ReadJiffies, SplitSpace, SumTimes, Decimal, StatLine, Laid;
    NameIsSkipped(pid, comm, Laid(fields, gaps, []));
    SplitLaid(fields, gaps, []);
    assert fields + [] == fields;
  }

  /** Round trip: a line laid out as in section /proc/pid/stat of proc(5) gives back utime plus
      stime, modulo 2^64, for every process name and any white space. */
  lemma StatRoundTrip(pid: nat, comm: string, fields: seq<string>, gaps: seq<string>, utime: U64, stime: U64)
    requires AreFields(fields, gaps)
    requires |fields| >= 13 && fields[11] == Decimal(utime) && fields[12] == Decimal(stime)
    ensures var r := ReadJiffies(StatLine(pid, comm, Laid(fields, gaps, [])));
      && r == Some((utime + stime) % 18446744073709551616)
      && (r == Some(utime + stime) <==> utime + stime < 18446744073709551616)
  {
    hide ReadJiffies, ParseU64, Decimal, StatLine, Laid, AreFields;
    FieldsRead(pid, comm, fields, gaps);
    ParseDecimal(utime);
    ParseDecimal(stime);
  }

  /** It gives nothing exactly if there are fewer than 13 fields after the name, or the 12th or
      the 13th of them is not a 64-bit number. */
  lemma NoTimesIff(pid: nat, comm: string, fields: seq<string>, gaps: seq<string>)
    requires AreFields(fields, gaps)
    ensures ReadJiffies(StatLine(pid, comm, Laid(fields, gaps, []))) == None <==>
            |fields| < 13 || ParseU64(fields[11]) == None || ParseU64(fields[12]) == None
  {
    hide ReadJiffies, ParseU64, Decimal, StatLine, Laid, AreFields;
    FieldsRead(pid, comm, fields, gaps);
  }

  // ----- VmHWM -----

  function LineLength(s: string): (n: nat)
    ensures n <= |s| && (n < |s| ==> s[n] == '\n') && '\n' !in s[..n]
  {
    if s == [] || s[0] == '\n' then 0
    else
      var n := 1 + LineLength(s[1..]);
      assert s[..n] == [s[0]] + s[1..][..n - 1];
      n
  }

  /** Lines end in a line feed, with a carriage return before it or not. */
  function Lines(s: string): seq<string>
    decreases |s|
  {
    if s == [] then []
    else
      var n := LineLength(s);
      if n == |s| then [s]
      else [if n > 0 && s[n - 1] == '\r' then s[..n - 1] else s[..n]] + Lines(s[n + 1..])
  }

  const VM_HWM := "VmHWM:"

  /** The first token of a line after the label, as a number. */
  function KbOf(line: string): Option<U64> {
    if !(VM_HWM <= line) then None
    else
      var fields := SplitSpace(line[|VM_HWM|..]);
      if fields == [] then None else ParseU64(fields[0])
  }

  /** The first labelled line decides, even if it does not parse. */
  function FirstKb(lines: seq<string>): Option<U64> {
    if lines == [] then None
    else if VM_HWM <= lines[0] then KbOf(lines[0])
    else FirstKb(lines[1..])
  }

  /** Line k is the first that starts with the label. */
  ghost predicate FirstLabelled(lines: seq<string>, k: nat) {
    k < |lines| && "VmHWM:" <= lines[k] && forall j :: 0 <= j < k ==> !("VmHWM:" <= lines[j])
  }

  /** The line as the kernel lays it out: the label, a tab, the number and its unit. */
  function KbLine(kb: U64): string {
    "VmHWM:\t" + Decimal(kb) + " kB"
  }

  lemma {:induction false} FirstDecides(lines: seq<string>)
    ensures (forall k :: 0 <= k < |lines| ==> !("VmHWM:" <= lines[k])) ==> FirstKb(lines) == None
    ensures forall k: nat :: FirstLabelled(lines, k) ==> FirstKb(lines) == KbOf(lines[k])
    ensures forall k: nat, kb: U64 :: FirstLabelled(lines, k) && lines[k] == KbLine(kb) ==> FirstKb(lines) == Some(kb)
  {
    hide KbOf;
    if lines != [] {
      FirstDecides(lines[1..]);
      forall k: nat | FirstLabelled(lines, k) ensures FirstKb(lines) == KbOf(lines[k]) {
        if k > 0 {
          assert !("VmHWM:" <= lines[0]);
          assert FirstLabelled(lines[1..], k - 1);
        }
      }
      forall kb: U64 ensures KbOf(KbLine(kb)) == Some(kb) { KbOfLine(kb); }
    }
  }

  /** A process that has died has no such line, which gives nothing; otherwise the first one
      decides, and gives the number the kernel printed in it. */
  method ReadVmhwmKb(s: string) returns (r: Option<U64>)
    ensures r == FirstKb(Lines(s))
    ensures (forall k :: 0 <= k < |Lines(s)| ==> !("VmHWM:" <= Lines(s)[k])) ==> r == None
    ensures forall k: nat :: FirstLabelled(Lines(s), k) ==> r == KbOf(Lines(s)[k])
    ensures forall k: nat, kb: U64 :: FirstLabelled(Lines(s), k) && Lines(s)[k] == KbLine(kb) ==> r == Some(kb)
  {
    hide FirstLabelled, Lines, SplitSpace, KbLine, ParseU64;
    FirstDecides(Lines(s));
    var lines := Lines(s);
    for i := 0 to |lines|
      invariant FirstKb(lines) == FirstKb(lines[i..])
    {
      if VM_HWM <= lines[i] {
        var fields := SplitSpace(lines[i][|VM_HWM|..]);
        if fields == [] { return None; }
        return ParseU64(fields[0]);
      }
    }
    return None;
  }

  lemma KbOfLine(kb: U64)
    ensures KbOf(KbLine(kb)) == Some(kb)
  {
    hide SplitSpace, ParseU64, Decimal;
    var rest := KbLine(kb)[|VM_HWM|..];
    assert VM_HWM <= KbLine(kb) && rest == "\t" + (Decimal(kb) + " kB");
    SkipGap("\t", Decimal(kb) + " kB");
    DecimalIsToken(kb);
    SplitFirst(Decimal(kb), " kB");
    ParseDecimal(kb);
  }

  /** The first token after the label counts, whatever follows it, and nothing but white space
      after the label gives nothing. */
  lemma FirstTokenCounts(gap: string, token: string, rest: string)
    requires AllSpace(gap) && IsToken(token) && (rest == [] || IsSpace(rest[0]))
    ensures KbOf("VmHWM:" + (gap + (token + rest))) == ParseU64(token)
    ensures KbOf("VmHWM:" + gap) == None
  {
    hide ParseU64;
    var line := "VmHWM:" + (gap + (token + rest));
    assert VM_HWM <= line && line[|VM_HWM|..] == gap + (token + rest);
    SkipGap(gap, token + rest);
    if rest == [] {
      assert token + rest == token;
      SplitLast(token);
    } else {
      SplitFirst(token, rest);
    }
    var bare := "VmHWM:" + gap;
    assert VM_HWM <= bare && bare[|VM_HWM|..] == gap == gap + [];
    SkipGap(gap, []);
  }

  /** A line that can be written out with this ending and cut off again. */
  predicate IsLine(l: string, crlf: bool) {
    '\n' !in l && (!crlf && l != [] ==> l[|l| - 1] != '\r')
  }

  predicate AreLines(lines: seq<string>, crlf: seq<bool>)
    requires |crlf| == |lines|
  {
    forall i :: 0 <= i < |lines| ==> IsLine(lines[i], crlf[i])
  }

  function Ending(crlf: bool): string {
    if crlf then "\r\n" else "\n"
  }

  function Text(lines: seq<string>, crlf: seq<bool>, last: string): string
    requires |crlf| == |lines|
  {
    if lines == [] then last else lines[0] + (Ending(crlf[0]) + Text(lines[1..], crlf[1..], last))
  }

  lemma {:induction false} LineLengthOf(l: string, rest: string)
    requires '\n' !in l && rest != [] && rest[0] == '\n'
    ensures LineLength(l + rest) == |l|
  {
    if l == [] {
      assert l + rest == rest;
    } else {
      assert (l + rest)[1..] == l[1..] + rest;
      LineLengthOf(l[1..], rest);
    }
  }

  /** The first line and the rest, when the line feed is at `n`. */
  lemma LinesAt(s: string, n: nat)
    requires n < |s| && LineLength(s) == n
    ensures Lines(s) == [if n > 0 && s[n - 1] == '\r' then s[..n - 1] else s[..n]] + Lines(s[n + 1..])
  {
  }

  lemma LineFeedLine(l: string, rest: string)
    requires IsLine(l, false)
    ensures Lines(l + ("\n" + rest)) == [l] + Lines(rest)
  {
    hide Lines, LineLength;
    var s := l + ("\n" + rest);
    LineLengthOf(l, "\n" + rest);
    LinesAt(s, |l|);
    assert s[..|l|] == l && s[|l| + 1..] == rest;
  }

  lemma CarriageReturnLine(l: string, rest: string)
    requires IsLine(l, true)
    ensures Lines(l + ("\r\n" + rest)) == [l] + Lines(rest)
  {
    hide Lines, LineLength;
    var s, m := l + ("\r\n" + rest), |l|;
    assert s == (l + "\r") + ("\n" + rest);
    LineLengthOf(l + "\r", "\n" + rest);
    LinesAt(s, m + 1);
    assert s[m] == '\r' && s[..m] == l && s[m + 2..] == rest;
  }

  lemma FirstLine(l: string, crlf: bool, rest: string)
    requires IsLine(l, crlf)
    ensures Lines(l + (Ending(crlf) + rest)) == [l] + Lines(rest)
  {
    hide Lines;
    if crlf { CarriageReturnLine(l, rest); } else { LineFeedLine(l, rest); }
  }

  /** Cutting a text into lines gives them back, with line feeds or carriage returns and line
      feeds in any mixture, and a last line that is not ended. */
  lemma {:induction false} LinesOfText(lines: seq<string>, crlf: seq<bool>, last: string)
    requires |crlf| == |lines| && AreLines(lines, crlf) && '\n' !in last
    ensures Lines(Text(lines, crlf, last)) == lines + Ended(last)
  {
    hide Lines, IsLine;
    if lines == [] {
      LastLine(last);
    } else {
      FirstLine(lines[0], crlf[0], Text(lines[1..], crlf[1..], last));
      LinesOfText(lines[1..], crlf[1..], last);
    }
  }

  lemma LastLine(last: string)
    requires '\n' !in last
    ensures Lines(last) == Ended(last)
  {
    if last != [] { assert LineLength(last) == |last|; }
  }

  lemma CutFirst(s: string, n: nat) returns (line: string, crlf: bool)
    requires n < |s| && s[n] == '\n' && '\n' !in s[..n]
    ensures IsLine(line, crlf) && s == line + (Ending(crlf) + s[n + 1..])
  {
    crlf := n > 0 && s[n - 1] == '\r';
    line := if crlf then s[..n - 1] else s[..n];
  }

  /** And every text is such lines, so cutting is known for every text. */
  lemma {:induction false} EveryTextIsLines(s: string) returns (lines: seq<string>, crlf: seq<bool>, last: string)
    ensures |crlf| == |lines| && AreLines(lines, crlf) && '\n' !in last
    ensures s == Text(lines, crlf, last) && Lines(s) == lines + Ended(last)
    decreases |s|
  {
    hide Lines, IsLine, LineLength, Ending;
    lines, crlf, last := [], [], s;
    var n := LineLength(s);
    if n < |s| {
      var line, cr := CutFirst(s, n);
      lines, crlf, last := EveryTextIsLines(s[n + 1..]);
      TextFirst(line, cr, lines, crlf, last);
      lines, crlf := [line] + lines, [cr] + crlf;
    } else {
      assert s[..n] == s;
    }
    LinesOfText(lines, crlf, last);
  }

  lemma TextFirst(line: string, cr: bool, lines: seq<string>, crlf: seq<bool>, last: string)
    requires |crlf| == |lines| && AreLines(lines, crlf) && IsLine(line, cr)
    ensures AreLines([line] + lines, [cr] + crlf)
    ensures Text([line] + lines, [cr] + crlf, last) == line + (Ending(cr) + Text(lines, crlf, last))
  {
    hide IsLine, Ending;
    assert ([line] + lines)[1..] == lines && ([cr] + crlf)[1..] == crlf;
  }

  /** Round trip: the peak size comes back from a status text, whatever other lines there are and
      however they end, if no earlier line carries the label. */
  lemma StatusRoundTrip(lines: seq<string>, crlf: seq<bool>, last: string, k: nat, kb: U64)
    requires |crlf| == |lines| && AreLines(lines, crlf) && '\n' !in last
    requires FirstLabelled(lines, k) && lines[k] == "VmHWM:\t" + Decimal(kb) + " kB"
    ensures FirstKb(Lines(Text(lines, crlf, last))) == Some(kb)
  {
    hide FirstKb, Lines, Text, KbOf, Decimal, AreLines;
    LinesOfText(lines, crlf, last);
    assert FirstLabelled(lines + Ended(last), k);
    FirstDecides(lines + Ended(last));
  }
}
