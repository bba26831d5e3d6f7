/**
 Finding the first JSON object in a stored message (`internal/app/taskapp/msg_data.go`).
 */
module MsgData {
  import opened Json

  // ----- the scanner's state -----

  datatype Scan = Scan(depth: int, inString: bool, escaped: bool)

  function Step(st: Scan, ch: Byte): Scan {
    if !st.inString then
      if ch == OPEN then st.(depth := st.depth + 1)
      else if ch == CLOSE then st.(depth := st.depth - 1)
      else if ch == QUOTE then st.(inString := true)
      else st
    else if st.escaped then st.(escaped := false)
    else if ch == BACKSLASH then st.(escaped := true)
    else if ch == QUOTE then st.(inString := false)
    else st
  }

  function Run(st: Scan, t: seq<Byte>): Scan
    decreases |t|
  {
    if t == [] then st else Run(Step(st, t[0]), t[1..])
  }

  lemma {:induction false} RunConcat(st: Scan, a: seq<Byte>, b: seq<Byte>)
    ensures Run(st, a + b) == Run(Run(st, a), b)
    decreases |a|
  {
    if a == [] {
      assert a + b == b;
    } else {
      assert (a + b)[1..] == a[1..] + b;
      RunConcat(Step(st, a[0]), a[1..], b);
    }
  }

  function Outside(depth: int): Scan {
    Scan(depth, false, false)
  }

  // ----- reference: braces outside string literals -----

  /** What follows a string literal, given the text after its opening quote; nothing when it is unterminated. */
  function AfterString(t: seq<Byte>): (r: seq<Byte>)
    ensures |r| <= |t|
  {
    if t == [] then []
    else if t[0] == QUOTE then t[1..]
    else if t[0] == BACKSLASH then (if |t| == 1 then [] else AfterString(t[2..]))
    else AfterString(t[1..])
  }

  /** The text with its string literals removed. */
  function Unquoted(t: seq<Byte>): seq<Byte>
    decreases |t|
  {
    if t == [] then []
    else if t[0] == QUOTE then Unquoted(AfterString(t[1..]))
    else [t[0]] + Unquoted(t[1..])
  }

  function Occurrences(t: seq<Byte>, b: Byte): nat {
    if t == [] then 0 else (if t[0] == b then 1 else 0) + Occurrences(t[1..], b)
  }

  /** Opening minus closing braces outside string literals. */
  function Balance(t: seq<Byte>): int {
    Occurrences(Unquoted(t), OPEN) - Occurrences(Unquoted(t), CLOSE)
  }

  lemma {:induction false} ScannerBalances(d: int, t: seq<Byte>)
    ensures Run(Outside(d), t).depth == d + Balance(t)
    decreases |t|
  {
    if t == [] {
    } else if t[0] == QUOTE {
      StringSkipped(d, t[1..]);
      ScannerBalances(d, AfterString(t[1..]));
    } else {
      ScannerBalances(Step(Outside(d), t[0]).depth, t[1..]);
      assert Unquoted(t)[1..] == Unquoted(t[1..]);
    }
  }

  lemma {:induction false} StringSkipped(d: int, t: seq<Byte>)
    ensures Run(Scan(d, true, false), t).depth == Run(Outside(d), AfterString(t)).depth
    decreases |t|
  {
    if t == [] || t[0] == QUOTE {
    } else if t[0] == BACKSLASH {
      if |t| > 1 {
        assert t[1..][1..] == t[2..];
        StringSkipped(d, t[2..]);
      }
    } else {
      StringSkipped(d, t[1..]);
    }
  }

  // ----- extraction -----

  /** Index of the first opening brace, or the length. */
  function FirstOpen(s: seq<Byte>): (f: nat)
    ensures f <= |s|
    ensures forall j :: 0 <= j < f ==> s[j] != OPEN
    ensures f < |s| ==> s[f] == OPEN
  {
    if s == [] || s[0] == OPEN then 0 else 1 + FirstOpen(s[1..])
  }

  /** The first k bytes from the first opening brace on are balanced. */
  predicate BalancedAt(s: seq<Byte>, k: nat) {
    && 0 < k <= |s| - FirstOpen(s)
    && Balance(s[FirstOpen(s)..][..k]) == 0
  }

  /** `r` is the shortest balanced text from the first opening brace on, or empty when there is none. */
  ghost predicate Extracts(s: seq<Byte>, r: seq<Byte>) {
    && (forall k: nat :: BalancedAt(s, k) ==> r != [] && |r| <= k)
    && (r != [] ==> BalancedAt(s, |r|) && r == s[FirstOpen(s)..][..|r|])
  }

  /** Go's decoding of one rune of a string: its value and its width in bytes. */
  function DecodeRune(s: seq<Byte>, i: nat): (r: (int, nat))
    requires i < |s|
    ensures 1 <= r.1 && i + r.1 <= |s|
    ensures r.0 == OPEN <==> s[i] == OPEN
    ensures forall j :: i < j < i + r.1 ==> s[j] >= 0x80
  {
    var c: int := s[i];
    var b1: int := if i + 1 < |s| then s[i + 1] else 0;
    var b2: int := if i + 2 < |s| then s[i + 2] else 0;
    var b3: int := if i + 3 < |s| then s[i + 3] else 0;
    var two := (c - 0xC0) * 0x40 + (b1 - 0x80);
    var three := (c - 0xE0) * 0x1000 + (b1 - 0x80) * 0x40 + (b2 - 0x80);
    var four := (c - 0xF0) * 0x4_0000 + (b1 - 0x80) * 0x1000 + (b2 - 0x80) * 0x40 + (b3 - 0x80);
    if c < 0x80 then (c, 1)
    else if 0xC0 <= c < 0xE0 && IsContinuation(b1) && two > 0x7F then (two, 2)
    else if 0xE0 <= c < 0xF0 && IsContinuation(b1) && IsContinuation(b2) && three > 0x7FF
        && !(0xD800 <= three <= 0xDFFF) then (three, 3)
    else if 0xF0 <= c < 0xF8 && IsContinuation(b1) && IsContinuation(b2) && IsContinuation(b3)
        && 0xFFFF < four <= 0x10FFFF then (four, 4)
    else (0xFFFD, 1)
  }

  predicate IsContinuation(b: int) {
    0x80 <= b <= 0xBF
  }

  lemma FirstOpenIs(s: seq<Byte>, i: nat)
    requires i <= |s| && (forall j :: 0 <= j < i ==> s[j] != OPEN) && (i < |s| ==> s[i] == OPEN)
    ensures FirstOpen(s) == i
  {
  }

  /** The first loop of `extractJSON`, over runes: the byte index of the first opening brace, or -1. */
  method FindStart(s: seq<Byte>) returns (start: int)
    ensures start == if FirstOpen(s) < |s| then FirstOpen(s) else -1
  {
    start := -1;
    var pos := 0;
    while pos < |s|
      invariant 0 <= pos <= |s| && forall j :: 0 <= j < pos ==> s[j] != OPEN
      invariant start == -1
      decreases |s| - pos
    {
      var (rune, width) := DecodeRune(s, pos);
      if rune == OPEN {
        start := pos;
        break;
      }
      pos := pos + width;
    }
    FirstOpenIs(s, pos);
  }

  /** No non-empty prefix of at most n bytes is balanced. */
  ghost predicate NoneBalanced(t: seq<Byte>, n: nat)
    requires n <= |t|
  {
    forall k :: 0 < k <= n ==> Balance(t[..k]) != 0
  }

  /** The first balanced length gives the extracted text. */
  lemma FirstBalanced(s: seq<Byte>, k: nat, r: seq<Byte>)
    requires BalancedAt(s, k) && NoneBalanced(s[FirstOpen(s)..], k - 1) && r == s[FirstOpen(s)..][..k]
    ensures Extracts(s, r)
  {
    SmallerUnbalanced(s, k - 1);
    assert |r| == k;
  }

  lemma SliceTwice(s: seq<Byte>, start: nat, k: nat)
    requires start + k <= |s|
    ensures s[start..start + k] == s[start..][..k]
  {
  }

  lemma SmallerUnbalanced(s: seq<Byte>, n: nat)
    requires n <= |s| - FirstOpen(s) && NoneBalanced(s[FirstOpen(s)..], n)
    ensures forall j: nat :: j <= n ==> !BalancedAt(s, j)
  {
  }

  lemma NeverBalanced(s: seq<Byte>)
    requires NoneBalanced(s[FirstOpen(s)..], |s| - FirstOpen(s))
    ensures Extracts(s, [])
  {
  }

  /** The scanner's state after n bytes, none of whose prefixes was balanced: inside the object once it has begun. */
  ghost predicate Inside(t: seq<Byte>, n: nat, scan: Scan)
    requires n <= |t|
  {
    && scan == Run(Outside(0), t[..n])
    && (if n == 0 then scan == Outside(0) else scan.depth >= 1)
    && NoneBalanced(t, n)
  }

  lemma DepthAfter(t: seq<Byte>, n: nat, scan: Scan)
    requires n < |t| && scan == Run(Outside(0), t[..n])
    ensures Run(Outside(0), t[..n + 1]) == Step(scan, t[n]) && Step(scan, t[n]).depth == Balance(t[..n + 1])
  {
    assert t[..n + 1] == t[..n] + [t[n]];
    RunConcat(Outside(0), t[..n], [t[n]]);
    assert Run(scan, [t[n]]) == Step(scan, t[n]);
    ScannerBalances(0, t[..n + 1]);
  }

  lemma OneMoreUnbalanced(t: seq<Byte>, n: nat)
    requires n < |t| && NoneBalanced(t, n) && Balance(t[..n + 1]) != 0
    ensures NoneBalanced(t, n + 1)
  {
    forall k | 0 < k <= n + 1
      ensures Balance(t[..k]) != 0
    {
      assert k <= n || k == n + 1;
    }
  }

  /** One more byte of the text at an opening brace leaves the scanner inside the object, or closes it. */
  lemma OneMoreByte(t: seq<Byte>, n: nat, scan: Scan, ch: Byte)
    requires n < |t| && t[0] == OPEN && Inside(t, n, scan) && ch == t[n]
    ensures var next := Step(scan, ch);
      if next.depth == 0 then Balance(t[..n + 1]) == 0 else Inside(t, n + 1, next)
  {
    DepthAfter(t, n, scan);
    if Step(scan, ch).depth != 0 {
      OneMoreUnbalanced(t, n);
    }
  }

  lemma NothingScanned(t: seq<Byte>)
    ensures Inside(t, 0, Outside(0))
  {
    assert t[..0] == [];
  }

  /** The object closed after k bytes from the first opening brace. */
  lemma Closed(s: seq<Byte>, start: nat, t: seq<Byte>, k: nat)
    requires start == FirstOpen(s) && t == s[start..] && 0 < k <= |t|
    requires NoneBalanced(t, k - 1) && Balance(t[..k]) == 0
    ensures Extracts(s, s[start..start + k])
  {
    SliceTwice(s, start, k);
    FirstBalanced(s, k, t[..k]);
  }

  /** One more byte gives the extracted text, or leaves the scanner inside the object. */
  lemma ByteScanned(s: seq<Byte>, start: nat, t: seq<Byte>, n: nat, scan: Scan, ch: Byte)
    requires start == FirstOpen(s) && t == s[start..] && n < |t| && ch == t[n] && Inside(t, n, scan)
    ensures var next := Step(scan, ch);
      if next.depth == 0 then Extracts(s, s[start..start + n + 1]) else Inside(t, n + 1, next)
  {
    assert t[0] == OPEN;
    OneMoreByte(t, n, scan, ch);
    if Step(scan, ch).depth == 0 {
      Closed(s, start, t, n + 1);
    }
  }

  /** It never closed. */
  lemma NeverClosed(s: seq<Byte>, t: seq<Byte>, scan: Scan)
    requires t == s[FirstOpen(s)..] && Inside(t, |t|, scan)
    ensures Extracts(s, [])
  {
    NeverBalanced(s);
  }

  /** `extractJSON`. */
  method ExtractJson(s: seq<Byte>) returns (r: seq<Byte>)
    ensures Extracts(s, r)
  {
    var start := FindStart(s);
    if start == -1 {
      NeverBalanced(s);
      return [];
    }

    var braceCount := 0;
    var inString := false;
    var escaped := false;
    ghost var t := s[start..];
    NothingScanned(t);
    for i := start to |s|
      invariant Inside(t, i - start, Scan(braceCount, inString, escaped))
    {
      var ch := s[i];
      ghost var next := Step(Scan(braceCount, inString, escaped), ch);
      ByteScanned(s, start, t, i - start, Scan(braceCount, inString, escaped), ch);
      if !inString {
        if ch == OPEN {
          braceCount := braceCount + 1;
        } else if ch == CLOSE {
          braceCount := braceCount - 1;
          if braceCount == 0 {
            return s[start..i + 1];
          }
        } else if ch == QUOTE {
          inString := true;
        }
      } else if escaped {
        escaped := false;
      } else if ch == BACKSLASH {
        escaped := true;
      } else if ch == QUOTE {
        inString := false;
      }
      assert Scan(braceCount, inString, escaped) == next;
    }
    NeverClosed(s, t, Scan(braceCount, inString, escaped));
    return [];
  }

  // ----- consequences for arbitrary bytes -----

  /** The result is determined by the input. */
  lemma ExtractsUnique(s: seq<Byte>, r1: seq<Byte>, r2: seq<Byte>)
    requires Extracts(s, r1) && Extracts(s, r2)
    ensures r1 == r2
  {
    if r1 != [] {
      assert BalancedAt(s, |r1|);
    }
    if r2 != [] {
      assert BalancedAt(s, |r2|);
    }
  }

  /** The extracted text as a function: lengths below `k` are already known not to balance. */
  function ShortestFrom(s: seq<Byte>, k: nat): (r: seq<Byte>)
    requires forall j: nat :: j < k ==> !BalancedAt(s, j)
    ensures Extracts(s, r)
    decreases |s| + 1 - k
  {
    if k > |s| then []
    else if BalancedAt(s, k) then s[FirstOpen(s)..][..k]
    else ShortestFrom(s, k + 1)
  }

  function Extraction(s: seq<Byte>): (r: seq<Byte>)
    ensures Extracts(s, r)
  {
    ShortestFrom(s, 0)
  }

  /** Nothing is extracted exactly when no text from the first opening brace on is balanced. */
  lemma EmptyIffUnbalanced(s: seq<Byte>, r: seq<Byte>)
    requires Extracts(s, r)
    ensures r == [] <==> forall k: nat :: !BalancedAt(s, k)
  {
    if r != [] {
      assert BalancedAt(s, |r|);
    }
  }

  /** A non-empty result stays the result under any prefix without opening brace and any tail. */
  lemma ExtractsInContext(prefix: seq<Byte>, s: seq<Byte>, tail: seq<Byte>, r: seq<Byte>)
    requires Extracts(s, r) && r != [] && OPEN !in prefix
    ensures Extracts(prefix + s + tail, r)
  {
    var f := FirstOpen(s);
    var whole := prefix + s + tail;
    assert BalancedAt(s, |r|);
    FirstOpenIs(whole, |prefix| + f);
    forall k: nat | k <= |r|
      ensures BalancedAt(whole, k) <==> BalancedAt(s, k)
    {
      assert whole[|prefix| + f..][..k] == s[f..][..k];
    }
    assert whole[|prefix| + f..][..|r|] == r;
  }

  /** Results are fixed points. */
  lemma ExtractsFixedPoint(s: seq<Byte>, r: seq<Byte>)
    requires Extracts(s, r)
    ensures Extracts(r, r)
  {
    if r == [] {
      assert FirstOpen(r) == 0;
    } else {
      var f := FirstOpen(s);
      assert BalancedAt(s, |r|);
      assert r[0] == s[f];
      FirstOpenIs(r, 0);
      forall k: nat | BalancedAt(r, k)
        ensures BalancedAt(s, k)
      {
        assert r[0..][..k] == s[f..][..k];
      }
      assert r[0..][..|r|] == r;
    }
  }

  // ----- every JSON object text is extracted -----

  /** Scanning `t`, outside or inside a string literal, comes back to the same state and never goes below its depth. */
  ghost predicate Keeps(inString: bool, t: seq<Byte>) {
    forall d: int :: KeepsFrom(Scan(d, inString, false), t)
  }

  predicate KeepsFrom(st: Scan, t: seq<Byte>) {
    Run(st, t) == st && StaysAbove(st, t, st.depth)
  }

  predicate StaysAbove(st: Scan, t: seq<Byte>, d: int) {
    forall k :: 0 <= k <= |t| ==> Run(st, t[..k]).depth >= d
  }

  lemma StaysAboveConcat(st: Scan, a: seq<Byte>, b: seq<Byte>, d: int)
    requires StaysAbove(st, a, d) && StaysAbove(Run(st, a), b, d)
    ensures StaysAbove(st, a + b, d)
  {
    forall k | 0 <= k <= |a + b|
      ensures Run(st, (a + b)[..k]).depth >= d
    {
      if k <= |a| {
        assert (a + b)[..k] == a[..k];
      } else {
        assert (a + b)[..k] == a + b[..k - |a|];
        RunConcat(st, a, b[..k - |a|]);
      }
    }
  }

  lemma KeepsConcat(inString: bool, a: seq<Byte>, b: seq<Byte>)
    requires Keeps(inString, a) && Keeps(inString, b)
    ensures Keeps(inString, a + b)
  {
    forall d: int
      ensures KeepsFrom(Scan(d, inString, false), a + b)
    {
      var st := Scan(d, inString, false);
      assert KeepsFrom(st, a) && KeepsFrom(st, b);
      RunConcat(st, a, b);
      StaysAboveConcat(st, a, b, d);
    }
  }

  predicate Ordinary(b: Byte) {
    b != OPEN && b != CLOSE && b != QUOTE
  }

  lemma {:induction false} OrdinaryKeeps(t: seq<Byte>)
    requires forall i :: 0 <= i < |t| ==> Ordinary(t[i])
    ensures Keeps(false, t)
  {
    forall d: int
      ensures KeepsFrom(Scan(d, false, false), t)
    {
      OrdinaryRun(Outside(d), t);
    }
  }

  lemma {:induction false} OrdinaryRun(st: Scan, t: seq<Byte>)
    requires (forall i :: 0 <= i < |t| ==> Ordinary(t[i])) && !st.inString && !st.escaped
    ensures KeepsFrom(st, t)
  {
    if t != [] {
      OrdinaryRun(st, t[1..]);
      forall k | 0 <= k <= |t|
        ensures Run(st, t[..k]).depth >= st.depth
      {
        if k > 0 {
          assert t[..k][1..] == t[1..][..k - 1];
          assert Run(st, t[..k]) == Run(st, t[1..][..k - 1]);
        }
      }
    }
  }

  lemma CharKeeps(c: Char)
    ensures Keeps(true, PrintChar(c))
  {
    forall d: int
      ensures KeepsFrom(Scan(d, true, false), PrintChar(c))
    {
      var t := PrintChar(c);
      var st := Scan(d, true, false);
      match c
      case Plain(b) => InStringOne(st, b);
      case Escape(letter) => InStringEscape(st, letter);
      case UnicodeEscape(h1, h2, h3, h4) =>
        InStringEscape(st, 0x75);
        InStringOne(st, h1);
        InStringOne(st, h2);
        InStringOne(st, h3);
        InStringOne(st, h4);
        KeepsFromConcat(st, [h3], [h4]);
        KeepsFromConcat(st, [h2], [h3] + [h4]);
        KeepsFromConcat(st, [h1], [h2] + ([h3] + [h4]));
        KeepsFromConcat(st, [BACKSLASH, 0x75], [h1] + ([h2] + ([h3] + [h4])));
        assert t == [BACKSLASH, 0x75] + ([h1] + ([h2] + ([h3] + [h4])));
    }
  }

  lemma KeepsFromConcat(st: Scan, a: seq<Byte>, b: seq<Byte>)
    requires KeepsFrom(st, a) && KeepsFrom(st, b)
    ensures KeepsFrom(st, a + b)
  {
    RunConcat(st, a, b);
    StaysAboveConcat(st, a, b, st.depth);
  }

  lemma InStringOne(st: Scan, b: Byte)
    requires st.inString && !st.escaped && b != QUOTE && b != BACKSLASH
    ensures KeepsFrom(st, [b])
  {
    assert [b][1..] == [];
    forall k | 0 <= k <= 1
      ensures Run(st, [b][..k]).depth >= st.depth
    {
      assert [b][..k] == if k == 0 then [] else [b];
    }
  }

  lemma InStringEscape(st: Scan, b: Byte)
    requires st.inString && !st.escaped
    ensures KeepsFrom(st, [BACKSLASH, b])
  {
    var t := [BACKSLASH, b];
    assert t[1..] == [b] && [b][1..] == [];
    assert Run(st, t) == Run(st.(escaped := true), [b]) == st;
    forall k | 0 <= k <= 2
      ensures Run(st, t[..k]).depth >= st.depth
    {
      assert t[..1] == [BACKSLASH] && [BACKSLASH][1..] == [] && t[..2] == t && t[..0] == [];
    }
  }

  lemma {:induction false} CharsKeep(cs: seq<Char>)
    ensures Keeps(true, PrintChars(cs))
  {
    if cs == [] {
      forall d: int
        ensures KeepsFrom(Scan(d, true, false), [])
      {
      }
    } else {
      CharKeeps(cs[0]);
      CharsKeep(cs[1..]);
      KeepsConcat(true, PrintChar(cs[0]), PrintChars(cs[1..]));
    }
  }

  /** A bracketed text: opening byte `a`, then `x`, then closing byte `b`. */
  lemma BracketRun(st: Scan, inner: Scan, a: Byte, x: seq<Byte>, b: Byte)
    requires Step(st, a) == inner && KeepsFrom(inner, x) && Step(inner, b) == st
    ensures Run(st, [a] + x + [b]) == st
    ensures forall k :: 0 < k < |x| + 2 ==> Run(st, ([a] + x + [b])[..k]).depth >= inner.depth
  {
    var t := [a] + x + [b];
    assert t[1..] == x + [b];
    RunConcat(inner, x, [b]);
    assert [b][1..] == [] && Run(inner, [b]) == st;
    forall k | 0 < k < |x| + 2
      ensures Run(st, t[..k]).depth >= inner.depth
    {
      assert t[..k][1..] == x[..k - 1];
      assert Run(st, t[..k]) == Run(inner, x[..k - 1]);
    }
  }

  lemma StringKeeps(cs: seq<Char>)
    ensures Keeps(false, PrintString(cs))
  {
    CharsKeep(cs);
    forall d: int
      ensures KeepsFrom(Scan(d, false, false), PrintString(cs))
    {
      var inner := Scan(d, true, false);
      assert KeepsFrom(inner, PrintChars(cs));
      BracketRun(Outside(d), inner, QUOTE, PrintChars(cs), QUOTE);
      BracketKeeps(Outside(d), QUOTE, PrintChars(cs), QUOTE);
    }
  }

  lemma BracketKeeps(st: Scan, a: Byte, x: seq<Byte>, b: Byte)
    requires Run(st, [a] + x + [b]) == st
    requires forall k :: 0 < k < |x| + 2 ==> Run(st, ([a] + x + [b])[..k]).depth >= st.depth
    ensures KeepsFrom(st, [a] + x + [b])
  {
    var t := [a] + x + [b];
    forall k | 0 <= k <= |t|
      ensures Run(st, t[..k]).depth >= st.depth
    {
      assert k == 0 ==> t[..k] == [];
      assert k == |t| ==> t[..k] == t;
    }
  }

  lemma BracesKeep(x: seq<Byte>)
    requires Keeps(false, x)
    ensures Keeps(false, [OPEN] + x + [CLOSE])
  {
    forall d: int
      ensures KeepsFrom(Scan(d, false, false), [OPEN] + x + [CLOSE])
    {
      assert KeepsFrom(Scan(d + 1, false, false), x);
      BracketRun(Outside(d), Outside(d + 1), OPEN, x, CLOSE);
      BracketKeeps(Outside(d), OPEN, x, CLOSE);
    }
  }

  // ----- mutual induction over the grammar -----

  lemma SpacesKeep(ws: seq<Space>)
    ensures Keeps(false, Bytes(ws))
  {
    OrdinaryKeeps(ws);
  }

  lemma NumberKeeps(v: Value)
    requires v.Number?
    ensures Keeps(false, PrintValue(v))
  {
    WholeIsOrdinary(v.whole);
    FractionIsOrdinary(v.fraction);
    ExponentIsOrdinary(v.exponent);
    OrdinaryKeeps(PrintSign(if v.minus then Minus else NoSign));
    OrdinaryKeeps(PrintWhole(v.whole));
    OrdinaryKeeps(PrintFraction(v.fraction));
    OrdinaryKeeps(PrintExponent(v.exponent));
    KeepsConcat(false, PrintSign(if v.minus then Minus else NoSign), PrintWhole(v.whole));
    KeepsConcat(false, PrintSign(if v.minus then Minus else NoSign) + PrintWhole(v.whole), PrintFraction(v.fraction));
    KeepsConcat(false,
                PrintSign(if v.minus then Minus else NoSign) + PrintWhole(v.whole) + PrintFraction(v.fraction),
                PrintExponent(v.exponent));
  }

  predicate AllOrdinary(t: seq<Byte>) {
    forall i :: 0 <= i < |t| ==> Ordinary(t[i])
  }

  lemma WholeIsOrdinary(w: Whole)
    ensures AllOrdinary(PrintWhole(w))
  {
  }

  lemma FractionIsOrdinary(f: Fraction)
    ensures AllOrdinary(PrintFraction(f))
  {
  }

  lemma ExponentIsOrdinary(e: Exponent)
    ensures AllOrdinary(PrintExponent(e))
  {
  }

  /** A value's text followed by padding. */
  lemma PaddedKeeps(v: Value, after: seq<Space>)
    requires Keeps(false, PrintValue(v))
    ensures Keeps(false, PrintValue(v) + after)
  {
    SpacesKeep(after);
    KeepsConcat(false, PrintValue(v), after);
  }

  /** Two texts with a comma between them, padded after it. */
  lemma CommaKeeps(a: seq<Byte>, before: seq<Space>, b: seq<Byte>)
    requires Keeps(false, a) && Keeps(false, b)
    ensures Keeps(false, a + [COMMA] + before + b)
  {
    OrdinaryKeeps([COMMA]);
    SpacesKeep(before);
    KeepsConcat(false, a, [COMMA]);
    KeepsConcat(false, a + [COMMA], before);
    KeepsConcat(false, a + [COMMA] + before, b);
  }

  /** A member: name, colon and value, with padding. */
  lemma PairKeeps(name: seq<Char>, s1: seq<Space>, s2: seq<Space>, v: Value, after: seq<Space>)
    requires Keeps(false, PrintValue(v))
    ensures Keeps(false, PrintString(name) + s1 + [COLON] + s2 + PrintValue(v) + after)
  {
    StringKeeps(name);
    SpacesKeep(s1);
    SpacesKeep(s2);
    SpacesKeep(after);
    OrdinaryKeeps([COLON]);
    KeepsConcat(false, PrintString(name), s1);
    KeepsConcat(false, PrintString(name) + s1, [COLON]);
    KeepsConcat(false, PrintString(name) + s1 + [COLON], s2);
    KeepsConcat(false, PrintString(name) + s1 + [COLON] + s2, PrintValue(v));
    KeepsConcat(false, PrintString(name) + s1 + [COLON] + s2 + PrintValue(v), after);
  }

  lemma {:induction false} ValueKeeps(v: Value)
    ensures Keeps(false, PrintValue(v))
  {
    match v
    case Null => OrdinaryKeeps(PrintValue(v));
    case True => OrdinaryKeeps(PrintValue(v));
    case False => OrdinaryKeeps(PrintValue(v));
    case Number(_, _, _, _) => NumberKeeps(v);
    case String(chars) => StringKeeps(chars);
    case Array(pad, items) =>
      ItemsKeep(items);
      SpacesKeep(pad);
      OrdinaryKeeps([ARRAY_OPEN]);
      OrdinaryKeeps([ARRAY_CLOSE]);
      KeepsConcat(false, Bytes(pad), PrintItems(items));
      KeepsConcat(false, [ARRAY_OPEN], Bytes(pad) + PrintItems(items));
      KeepsConcat(false, [ARRAY_OPEN] + (Bytes(pad) + PrintItems(items)), [ARRAY_CLOSE]);
    case Object(body) =>
      InsideKeeps(body);
      BracesKeep(Bytes(body.pad) + PrintMembers(body.members));
  }

  lemma {:induction false} ItemsKeep(items: Items)
    ensures Keeps(false, PrintItems(items))
  {
    match items
    case NoItems => OrdinaryKeeps([]);
    case LastItem(value, after) =>
      ValueKeeps(value);
      PaddedKeeps(value, after);
    case Item(value, after, before, rest) =>
      ValueKeeps(value);
      PaddedKeeps(value, after);
      ItemsKeep(rest);
      CommaKeeps(PrintValue(value) + after, before, PrintItems(rest));
  }

  lemma {:induction false} InsideKeeps(o: ObjectText)
    ensures Keeps(false, Bytes(o.pad) + PrintMembers(o.members))
  {
    SpacesKeep(o.pad);
    MembersKeep(o.members);
    KeepsConcat(false, Bytes(o.pad), PrintMembers(o.members));
  }

  lemma {:induction false} MembersKeep(members: Members)
    ensures Keeps(false, PrintMembers(members))
  {
    match members
    case NoMembers => OrdinaryKeeps([]);
    case LastMember(name, s1, s2, value, after) =>
      ValueKeeps(value);
      PairKeeps(name, s1, s2, value, after);
    case Member(name, s1, s2, value, after, before, rest) =>
      ValueKeeps(value);
      PairKeeps(name, s1, s2, value, after);
      MembersKeep(rest);
      CommaKeeps(PrintString(name) + s1 + [COLON] + s2 + PrintValue(value) + after, before, PrintMembers(rest));
  }

  /** An object text balances, and none of its shorter beginnings does. */
  lemma ObjectBalances(o: ObjectText)
    ensures var t := PrintObject(o);
      Balance(t) == 0 && forall k :: 0 < k < |t| ==> Balance(t[..k]) > 0
  {
    var t := PrintObject(o);
    var x := Bytes(o.pad) + PrintMembers(o.members);
    InsideKeeps(o);
    assert KeepsFrom(Scan(1, false, false), x);
    BracketRun(Outside(0), Scan(1, false, false), OPEN, x, CLOSE);
    ScannerBalances(0, t);
    forall k | 0 < k < |t|
      ensures Balance(t[..k]) > 0
    {
      ScannerBalances(0, t[..k]);
    }
  }

  /**
   Extraction finds every JSON object: for a prefix without opening brace, an object text of RFC 8259
   and any tail, the result is that text and nothing else.
   */
  lemma ObjectExtracted(prefix: seq<Byte>, o: ObjectText, tail: seq<Byte>)
    requires OPEN !in prefix
    ensures Extracts(prefix + PrintObject(o) + tail, PrintObject(o))
  {
    var t := PrintObject(o);
    ObjectBalances(o);
    assert t[0] == OPEN;
    FirstOpenIs(t, 0);
    assert t[0..] == t && t[..|t|] == t;
    assert Extracts(t, t) by {
      forall k: nat | BalancedAt(t, k)
        ensures |t| <= k
      {
        assert t[0..][..k] == t[..k];
      }
    }
    ExtractsInContext(prefix, t, tail, t);
  }
}
