/** Query parameters into typed fields (`pkg/queryparser/parser.go`), for strings and integers. */
module QueryParser {
  import opened Prelude
  import Strconv
  import Strings

  // ----- text -----

  /** `unicode.IsSpace`. */
  predicate IsSpace(c: char) {
    || '\t' <= c <= '\r'
    || c in {' ', '\U{0085}', '\U{00A0}', '\U{1680}', '\U{2028}', '\U{2029}', '\U{202F}', '\U{205F}', '\U{3000}'}
    || '\U{2000}' <= c <= '\U{200A}'
  }

  /** The white space characters by their code points. */
  lemma SpaceCodes(c: char)
    ensures IsSpace(c) <==>
      var n := c as int;
      n in {9, 10, 11, 12, 13, 32, 0x85, 0xA0, 0x1680, 0x2028, 0x2029, 0x202F, 0x205F, 0x3000} || 0x2000 <= n <= 0x200A
  {
  }

  function TrimLeft(s: string): string {
    if s != "" && IsSpace(s[0]) then TrimLeft(s[1..]) else s
  }

  function TrimRight(s: string): string {
    if s != "" && IsSpace(s[|s| - 1]) then TrimRight(s[..|s| - 1]) else s
  }

  /** `strings.TrimSpace`. */
  function Trim(s: string): string {
    TrimRight(TrimLeft(s))
  }

  /** `strings.Split(s, ",")`. */
  function Split(s: string): (r: seq<string>)
    ensures r != []
  {
    if s == "" then [""]
    else if s[0] == ',' then [""] + Split(s[1..])
    else
      var r := Split(s[1..]);
      [[s[0]] + r[0]] + r[1..]
  }

  /** The pieces with commas between them. */
  function Join(pieces: seq<string>): string {
    Strings.Join(pieces, ",")
  }

  predicate CommaFree(s: string) {
    ',' !in s
  }

  lemma {:induction false} SplitOne(s: string)
    requires CommaFree(s)
    ensures Split(s) == [s]
  {
    if s != "" {
      assert s[0] in s && [s[0]] + s[1..] == s;
      SplitOne(s[1..]);
    }
  }

  lemma SplitHead(c: char, rest: string)
    ensures Split([c] + rest) == if c == ',' then [""] + Split(rest) else [[c] + Split(rest)[0]] + Split(rest)[1..]
  {
    assert ([c] + rest)[1..] == rest;
  }

  /** Splitting a text that has a comma somewhere splits the parts on both sides of it. */
  lemma {:induction false} SplitAppend(a: string, b: string)
    ensures Split(a + "," + b) == Split(a) + Split(b)
  {
    if a == "" {
      SplitHead(',', b);
      assert a + "," + b == [','] + b;
    } else {
      var rest := a[1..] + "," + b;
      SplitAppend(a[1..], b);
      SplitHead(a[0], rest);
      assert a + "," + b == [a[0]] + rest;
      HeadAppend(a[0], Split(a[1..]), Split(b));
    }
  }

  lemma HeadAppend(c: char, pieces: seq<string>, more: seq<string>)
    requires pieces != []
    ensures [[c] + (pieces + more)[0]] + (pieces + more)[1..] == [[c] + pieces[0]] + pieces[1..] + more
    ensures [""] + (pieces + more) == [""] + pieces + more
  {
  }

  /** Splitting undoes joining. */
  lemma {:induction false} SplitJoin(pieces: seq<string>)
    requires pieces != [] && forall i :: 0 <= i < |pieces| ==> CommaFree(pieces[i])
    ensures Split(Join(pieces)) == pieces
  {
    if |pieces| == 1 {
      SplitOne(pieces[0]);
    } else {
      SplitJoin(pieces[1..]);
      SplitOne(pieces[0]);
      SplitAppend(pieces[0], Join(pieces[1..]));
    }
  }

  // ----- elements -----

  datatype Width = W8 | W16 | W32 | W64

  function Values(w: Width): int {
    match w
    case W8 => 0x100
    case W16 => 0x1_0000
    case W32 => 0x1_0000_0000
    case W64 => 0x1_0000_0000_0000_0000
  }

  /** A Go kind; `Other` is one that the parser does not support, by name. */
  datatype Kind = Text | Signed(width: Width) | Unsigned(width: Width) | Other(name: string)

  datatype Element = Str(text: string) | Num(n: int)

  /** What a signed or unsigned integer of that width keeps of `n`. */
  function Wrapped(n: int, k: Kind): int {
    match k
    case Signed(w) => (n + Values(w) / 2) % Values(w) - Values(w) / 2
    case Unsigned(w) => n % Values(w)
    case _ => n
  }

  predicate Fits(n: int, k: Kind) {
    match k
    case Signed(w) => -Values(w) / 2 <= n < Values(w) / 2
    case Unsigned(w) => 0 <= n < Values(w)
    case _ => true
  }

  lemma WrappedIffFits(n: int, k: Kind)
    ensures Wrapped(n, k) == n <==> Fits(n, k)
  {
    match k
    case Signed(w) => match w { case W8 => case W16 => case W32 => case W64 => }
    case Unsigned(w) => match w { case W8 => case W16 => case W32 => case W64 => }
    case _ =>
  }

  /** 64-bit parsing, then conversion to the field's type. */
  function ParseNumber(k: Kind, value: string): Option<int> {
    match k
    case Signed(_) =>
      (match Strconv.ParseInt(value)
       case None => None
       case Some(n) => Some(Wrapped(n, k)))
    case Unsigned(_) =>
      (match Strconv.ParseUint(value)
       case None => None
       case Some(n) => Some(Wrapped(n, k)))
    case _ => None
  }

  predicate Integral(k: Kind) {
    k.Signed? || k.Unsigned?
  }

  /** The error texts name the kind of number, and whether it was an element of a slice. */
  function NumberError(k: Kind, inSlice: bool, value: string): string {
    (match (k.Signed?, inSlice)
     case (true, true) => "invalid integer value in slice: "
     case (true, false) => "invalid integer value: "
     case (false, true) => "invalid unsigned integer value in slice: "
     case (false, false) => "invalid unsigned integer value: ") + value
  }

  /** `parseSliceElement`. */
  function ParseElement(k: Kind, value: string): Result<Element> {
    match k
    case Text => Ok(Str(value))
    case Other(name) => Err("unsupported slice element type: " + name)
    case _ =>
      match ParseNumber(k, value)
      case None => Err(NumberError(k, true, value))
      case Some(n) => Ok(Num(n))
  }

  // ----- what a list of parameters means -----

  /** What f gives for each element, one after another. */
  function Each(f: string -> seq<string>, s: seq<string>): seq<string> {
    if s == [] then [] else Each(f, s[..|s| - 1]) + f(s[|s| - 1])
  }

  lemma {:induction false} EachAppend(f: string -> seq<string>, a: seq<string>, b: seq<string>)
    ensures Each(f, a + b) == Each(f, a) + Each(f, b)
  {
    if b == [] {
      assert a + b == a;
    } else {
      var init, last := b[..|b| - 1], b[|b| - 1];
      EachAppend(f, a, init);
      EachSnoc(f, a + init, last);
      assert a + b == a + init + [last];
      Regroup(Each(f, a), Each(f, init), f(last));
    }
  }

  lemma EachSnoc(f: string -> seq<string>, s: seq<string>, x: string)
    ensures Each(f, s + [x]) == Each(f, s) + f(x)
  {
    assert (s + [x])[..|s|] == s;
  }

  lemma Regroup(a: seq<string>, b: seq<string>, c: seq<string>)
    ensures a + b + c == a + (b + c)
  {
  }

  lemma {:induction false} EachSame(f: string -> seq<string>, s: seq<string>)
    requires forall i :: 0 <= i < |s| ==> f(s[i]) == [s[i]]
    ensures Each(f, s) == s
  {
    if s != [] {
      EachSame(f, s[..|s| - 1]);
    }
  }

  /** One piece trimmed, or nothing when it is blank. */
  function CleanPiece(piece: string): seq<string> {
    if Trim(piece) == "" then [] else [Trim(piece)]
  }

  /** The pieces that are not blank, trimmed. */
  function Clean(pieces: seq<string>): seq<string> {
    Each(CleanPiece, pieces)
  }

  /** The elements' texts: the parameters joined into one, split at its commas, without blanks. */
  function Pieces(values: seq<string>): seq<string> {
    Clean(Split(Join(values)))
  }

  /** One more parsed element; an earlier error comes first. */
  function Appended(elements: Result<seq<Element>>, x: Result<Element>): Result<seq<Element>> {
    if elements.Err? then elements
    else if x.Err? then Err(x.error)
    else Ok(elements.value + [x.value])
  }

  /** All elements, or the error of the first one that is bad. */
  function ParseAll(k: Kind, pieces: seq<string>): Result<seq<Element>> {
    if pieces == [] then Ok([])
    else Appended(ParseAll(k, pieces[..|pieces| - 1]), ParseElement(k, pieces[|pieces| - 1]))
  }

  lemma CleanOne(piece: string)
    ensures Clean([piece]) == if Trim(piece) == "" then [] else [Trim(piece)]
  {
    EachSnoc(CleanPiece, [], piece);
    assert [] + [piece] == [piece];
  }

  lemma ParseSnoc(k: Kind, pieces: seq<string>, piece: string)
    ensures ParseAll(k, pieces + [piece]) == Appended(ParseAll(k, pieces), ParseElement(k, piece))
  {
    assert (pieces + [piece])[..|pieces|] == pieces;
  }

  lemma CleanAppend(a: seq<string>, b: seq<string>)
    ensures Clean(a + b) == Clean(a) + Clean(b)
  {
    EachAppend(CleanPiece, a, b);
  }

  /** One more parameter adds the pieces of that parameter. */
  lemma PiecesStep(values: seq<string>, last: string)
    ensures Pieces(values + [last]) == Pieces(values) + Clean(Split(last))
  {
    if values == [] {
      assert values + [last] == [last];
    } else {
      Strings.JoinAppend(values, last, ",");
      SplitAppend(Join(values), last);
      CleanAppend(Split(Join(values)), Split(last));
    }
  }

  /** An error among the first pieces is the error of the whole list. */
  lemma {:induction false} ErrorStays(k: Kind, first: seq<string>, all: seq<string>)
    requires first <= all && ParseAll(k, first).Err?
    ensures ParseAll(k, all) == ParseAll(k, first)
  {
    if |first| < |all| {
      ErrorStays(k, first, all[..|all| - 1]);
    } else {
      assert first == all;
    }
  }

  lemma PiecesPrefix(values: seq<string>, i: nat)
    requires i < |values|
    ensures Pieces(values[..i + 1]) == Pieces(values[..i]) + Clean(Split(values[i]))
  {
    assert values[..i + 1] == values[..i] + [values[i]];
    PiecesStep(values[..i], values[i]);
  }

  lemma {:induction false} BadPrefix(k: Kind, values: seq<string>, i: nat)
    requires i <= |values| && ParseAll(k, Pieces(values[..i])).Err?
    ensures ParseAll(k, Pieces(values)) == ParseAll(k, Pieces(values[..i]))
    decreases |values| - i
  {
    if i == |values| {
      assert values[..i] == values;
    } else {
      PiecesPrefix(values, i);
      ErrorStays(k, Pieces(values[..i]), Pieces(values[..i + 1]));
      BadPrefix(k, values, i + 1);
    }
  }

  lemma PieceStep(before: seq<string>, sub: seq<string>, j: nat)
    requires j < |sub|
    ensures before + Clean(sub[..j + 1]) == before + Clean(sub[..j]) + Clean([sub[j]])
  {
    assert sub[..j + 1] == sub[..j] + [sub[j]];
    CleanAppend(sub[..j], [sub[j]]);
  }

  lemma BadSubPiece(k: Kind, before: seq<string>, sub: seq<string>, j: nat)
    requires j <= |sub| && ParseAll(k, before + Clean(sub[..j])).Err?
    ensures ParseAll(k, before + Clean(sub)) == ParseAll(k, before + Clean(sub[..j]))
  {
    CleanSplit(sub, j);
    ErrorStays(k, before + Clean(sub[..j]), before + Clean(sub));
  }

  lemma CleanSplit(sub: seq<string>, j: nat)
    requires j <= |sub|
    ensures Clean(sub) == Clean(sub[..j]) + Clean(sub[j..])
  {
    assert sub == sub[..j] + sub[j..];
    CleanAppend(sub[..j], sub[j..]);
  }

  // ----- the parser -----

  /** Handles one piece of a parameter: appended to `slice` unless blank; `before` is the pieces already in `slice`. */
  method AddPiece(k: Kind, piece: string, slice: seq<Element>, ghost before: seq<string>)
      returns (r: Result<seq<Element>>)
    requires ParseAll(k, before) == Ok(slice)
    ensures r == ParseAll(k, before + Clean([piece]))
  {
    CleanOne(piece);
    var value := Trim(piece);
    if value == "" {
      assert before + [] == before;
      return Ok(slice);
    }
    ParseSnoc(k, before, value);
    match ParseElement(k, value)
    case Err(e) => r := Err(e);
    case Ok(x) => r := Ok(slice + [x]);
  }

  /** The inner loop, over the parts of one parameter; `before` is the pieces already in `slice`. */
  method AddPieces(k: Kind, subValues: seq<string>, slice: seq<Element>, ghost before: seq<string>)
      returns (r: Result<seq<Element>>)
    requires ParseAll(k, before) == Ok(slice)
    ensures r == ParseAll(k, before + Clean(subValues))
  {
    var longer := slice;
    assert before + Clean(subValues[..0]) == before;
    for j := 0 to |subValues|
      invariant ParseAll(k, before + Clean(subValues[..j])) == Ok(longer)
    {
      PieceStep(before, subValues, j);
      var added := AddPiece(k, subValues[j], longer, before + Clean(subValues[..j]));
      if added.Err? {
        BadSubPiece(k, before, subValues, j + 1);
        return added;
      }
      longer := added.value;
    }
    assert subValues[..|subValues|] == subValues;
    r := Ok(longer);
  }

  /** The slice that `setSliceValue` builds, or the error it stops at. */
  method BuildSlice(k: Kind, values: seq<string>) returns (r: Result<seq<Element>>)
    ensures r == ParseAll(k, Pieces(values))
  {
    var slice: seq<Element> := [];
    for i := 0 to |values|
      invariant ParseAll(k, Pieces(values[..i])) == Ok(slice)
    {
      var value := values[i];
      var subValues := if ',' in value then Split(value) else [value];
      assert subValues == Split(value) by {
        if ',' !in value {
          SplitOne(value);
        }
      }
      PiecesPrefix(values, i);
      var added := AddPieces(k, subValues, slice, Pieces(values[..i]));
      if added.Err? {
        BadPrefix(k, values, i + 1);
        return added;
      }
      slice := added.value;
    }
    assert values[..|values|] == values;
    r := Ok(slice);
  }

  datatype FieldType = ScalarField(k: Kind) | SliceField(element: Kind)

  /** A struct field: its name, query tag and type. */
  datatype Declaration = Declaration(name: string, tag: string, exported: bool, fieldType: FieldType)

  datatype Value = Scalar(element: Element) | Slice(elements: seq<Element>)

  type Query = map<string, seq<string>>

  function All(q: Query, tag: string): seq<string> {
    if tag in q then q[tag] else []
  }

  /** `url.Values.Get`. */
  function Single(q: Query, tag: string): string {
    if All(q, tag) == [] then "" else All(q, tag)[0]
  }

  /** What a field that is not a slice holds after its turn; an empty parameter leaves it alone. */
  function ScalarResult(k: Kind, value: Value, single: string): Result<Value> {
    match k
    case Other(name) => Err("unsupported field type: " + name)
    case Text => Ok(if single == "" then value else Scalar(Str(single)))
    case _ =>
      if single == "" then Ok(value)
      else
        match ParseNumber(k, single)
        case None => Err(NumberError(k, false, single))
        case Some(n) => Ok(Scalar(Num(n)))
  }

  /** What a field holds after its turn. */
  function FieldResult(d: Declaration, value: Value, q: Query): Result<Value> {
    var single := Single(q, d.tag);
    if !d.exported || d.tag == "" then Ok(value)
    else
      match d.fieldType
      case ScalarField(k) => ScalarResult(k, value, single)
      case SliceField(k) =>
        if All(q, d.tag) == [] then Ok(value)
        else
          (match ParseAll(k, Pieces(All(q, d.tag)))
           case Err(e) => Err(e)
           case Ok(xs) => Ok(Slice(xs)))
  }

  class Target {
    const declarations: seq<Declaration>
    var fields: seq<Value>

    ghost predicate Valid()
      reads this
    {
      |fields| == |declarations|
    }

    constructor (declarations: seq<Declaration>, fields: seq<Value>)
      requires |fields| == |declarations|
      ensures Valid() && this.declarations == declarations && this.fields == fields
    {
      this.declarations, this.fields := declarations, fields;
    }

    /** `setSliceValue`: a bad element leaves the field as it was. */
    method SetSliceValue(i: nat, k: Kind, values: seq<string>) returns (r: Result<()>)
      requires Valid() && i < |fields|
      modifies this
      ensures match ParseAll(k, Pieces(values))
              case Ok(parsed) => r == Ok(()) && fields == old(fields)[i := Slice(parsed)]
              case Err(e) => r == Err(e) && fields == old(fields)
    {
      var slice := BuildSlice(k, values);
      if slice.Err? {
        return Err(slice.error);
      }
      fields := fields[i := Slice(slice.value)];
      r := Ok(());
    }

    /** `setFieldValue`, with the tag and export checks of its caller. */
    method SetFieldValue(i: nat, q: Query) returns (r: Result<()>)
      requires Valid() && i < |fields|
      modifies this
      ensures match FieldResult(declarations[i], old(fields)[i], q)
              case Ok(value) => r == Ok(()) && fields == old(fields)[i := value]
              case Err(e) => r == Err(e) && fields == old(fields)
    {
      var d := declarations[i];
      r := Ok(());
      if !d.exported || d.tag == "" {
        return;
      }
      var queryValue, queryValues := Single(q, d.tag), All(q, d.tag);
      match d.fieldType
      case ScalarField(k) =>
        r := SetScalar(i, k, queryValue);
      case SliceField(k) =>
        if |queryValues| > 0 {
          r := SetSliceValue(i, k, queryValues);
        }
    }

    /** The cases of `setFieldValue` for strings and integers. */
    method SetScalar(i: nat, k: Kind, queryValue: string) returns (r: Result<()>)
      requires Valid() && i < |fields|
      modifies this
      ensures match ScalarResult(k, old(fields)[i], queryValue)
              case Ok(value) => r == Ok(()) && fields == old(fields)[i := value]
              case Err(e) => r == Err(e) && fields == old(fields)
    {
      r := Ok(());
      match k
      case Text =>
        if queryValue != "" {
          fields := fields[i := Scalar(Str(queryValue))];
        }
      case Other(name) => r := Err("unsupported field type: " + name);
      case _ =>
        if queryValue != "" {
          match ParseNumber(k, queryValue)
          case None => r := Err(NumberError(k, false, queryValue));
          case Some(n) => fields := fields[i := Scalar(Num(n))];
        }
    }

    /** Fields are set in order up to the first bad one; that one and the later ones stay as they were. */
    method ParseQueryParams(q: Query) returns (r: Result<()>)
      requires Valid()
      modifies this
      ensures Valid()
      ensures r.Ok? ==> forall i :: 0 <= i < |fields| ==>
          FieldResult(declarations[i], old(fields)[i], q) == Ok(fields[i])
      ensures r.Err? ==> exists n :: 0 <= n < |fields| && StoppedAt(old(fields), n, q, r.error)
    {
      for i := 0 to |declarations|
        invariant Valid()
        invariant forall j :: 0 <= j < i ==> FieldResult(declarations[j], old(fields)[j], q) == Ok(fields[j])
        invariant fields[i..] == old(fields)[i..]
      {
        assert fields[i] == fields[i..][0] == old(fields)[i];
        var outcome := SetFieldValue(i, q);
        if outcome.Err? {
          assert StoppedAt(old(fields), i, q, "failed to set field " + declarations[i].name + ": " + outcome.error);
          return Err("failed to set field " + declarations[i].name + ": " + outcome.error);
        }
      }
      r := Ok(());
    }

    /** The parser gave up at field `n` with this error. */
    ghost predicate StoppedAt(before: seq<Value>, n: nat, q: Query, error: string)
      reads this
      requires Valid() && |before| == |fields| && n < |fields|
    {
      && FieldResult(declarations[n], before[n], q).Err?
      && error == "failed to set field " + declarations[n].name + ": "
           + FieldResult(declarations[n], before[n], q).error
      && (forall j :: 0 <= j < n ==> FieldResult(declarations[j], before[j], q) == Ok(fields[j]))
      && fields[n..] == before[n..]
    }
  }

  // ----- round trips -----

  predicate Blank(s: string) {
    forall i :: 0 <= i < |s| ==> IsSpace(s[i])
  }

  /** A text that can be an element: not empty, without commas, without spaces at its ends. */
  predicate Item(s: string) {
    s != "" && CommaFree(s) && !IsSpace(s[0]) && !IsSpace(s[|s| - 1])
  }

  lemma {:induction false} TrimLeftPadding(pre: string, s: string)
    requires Blank(pre)
    ensures TrimLeft(pre + s) == TrimLeft(s)
  {
    if pre == "" {
      assert pre + s == s;
    } else {
      TrimLeftPadding(pre[1..], s);
      assert (pre + s)[1..] == pre[1..] + s;
    }
  }

  lemma {:induction false} TrimRightPadding(s: string, post: string)
    requires Blank(post)
    ensures TrimRight(s + post) == TrimRight(s)
  {
    if post == "" {
      assert s + post == s;
    } else {
      TrimRightPadding(s, post[..|post| - 1]);
      assert (s + post)[..|s + post| - 1] == s + post[..|post| - 1];
    }
  }

  /** Trimming removes exactly the padding. */
  lemma TrimPadded(pre: string, s: string, post: string)
    requires Blank(pre) && Blank(post) && (s == "" || Item(s))
    ensures Trim(pre + s + post) == s
  {
    TrimLeftPadding(pre, s + post);
    assert pre + s + post == pre + (s + post);
    if s == "" {
      TrimLeftPadding(post, "");
      assert s + post == post && post + "" == post;
    } else {
      TrimRightPadding(s, post);
    }
  }

  lemma TrimItem(s: string)
    requires Item(s)
    ensures Trim(s) == s
  {
    TrimPadded("", s, "");
    assert "" + s + "" == s;
  }

  lemma CleanMiddle(a: seq<string>, piece: string, b: seq<string>)
    ensures Clean(a + [piece] + b) == Clean(a) + Clean([piece]) + Clean(b)
  {
    CleanAppend(a + [piece], b);
    CleanAppend(a, [piece]);
  }

  /** A blank piece anywhere in the list never matters. */
  lemma BlankPieceIgnored(a: seq<string>, blank: string, b: seq<string>)
    requires Blank(blank)
    ensures Clean(a + [blank] + b) == Clean(a + b)
  {
    BlankCleans(blank);
    CleanMiddle(a, blank, b);
    CleanAppend(a, b);
    assert Clean(a) + [] == Clean(a);
  }

  lemma BlankCleans(blank: string)
    requires Blank(blank)
    ensures Clean([blank]) == []
  {
    TrimPadded(blank, "", "");
    assert blank + "" + "" == blank;
    CleanOne(blank);
  }

  /** Nor does padding around an element. */
  lemma PaddingIgnored(a: seq<string>, pre: string, s: string, post: string, b: seq<string>)
    requires Blank(pre) && Blank(post) && Item(s)
    ensures Clean(a + [pre + s + post] + b) == Clean(a + [s] + b)
  {
    TrimPadded(pre, s, post);
    TrimItem(s);
    CleanOne(pre + s + post);
    CleanOne(s);
    CleanMiddle(a, pre + s + post, b);
    CleanMiddle(a, s, b);
  }

  function Flatten<T>(groups: seq<seq<T>>): seq<T> {
    if groups == [] then [] else Flatten(groups[..|groups| - 1]) + groups[|groups| - 1]
  }

  /** One parameter a group, its pieces joined by commas. */
  function Parameters(groups: seq<seq<string>>): seq<string> {
    seq(|groups|, i requires 0 <= i < |groups| => Join(groups[i]))
  }

  /** However a list of pieces is divided among parameters, empty parameters included, the same elements come out. */
  lemma {:induction false} PartitionIrrelevant(groups: seq<seq<string>>)
    requires forall s :: s in Flatten(groups) ==> CommaFree(s)
    ensures Pieces(Parameters(groups)) == Clean(Flatten(groups))
  {
    if groups == [] {
      assert Parameters(groups) == [] && Clean([""]) == [];
    } else {
      var init, last := groups[..|groups| - 1], groups[|groups| - 1];
      PartitionIrrelevant(init);
      assert Parameters(groups) == Parameters(init) + [Join(last)];
      PiecesStep(Parameters(init), Join(last));
      assert forall i :: 0 <= i < |last| ==> last[i] in Flatten(groups);
      if last == [] {
        assert Clean([""]) == [];
      } else {
        SplitJoin(last);
      }
      CleanAppend(Flatten(init), last);
    }
  }

  lemma CleanItems(items: seq<string>)
    requires forall i :: 0 <= i < |items| ==> Item(items[i])
    ensures Clean(items) == items
  {
    forall i | 0 <= i < |items|
      ensures CleanPiece(items[i]) == [items[i]]
    {
      TrimItem(items[i]);
    }
    EachSame(CleanPiece, items);
  }

  function Texts(items: seq<string>): seq<Element> {
    seq(|items|, i requires 0 <= i < |items| => Str(items[i]))
  }

  function Numbers(ns: seq<int>): seq<Element> {
    seq(|ns|, i requires 0 <= i < |ns| => Num(ns[i]))
  }

  function Rendered(ns: seq<int>): seq<string> {
    seq(|ns|, i requires 0 <= i < |ns| => Strconv.FormatInt(ns[i]))
  }

  lemma SnocInjective<T>(ys: seq<T>, y: T, xs: seq<T>, x: T)
    ensures ys + [y] == xs + [x] <==> ys == xs && y == x
  {
    if ys + [y] == xs + [x] {
      assert ys == (ys + [y])[..|ys + [y]| - 1] && y == (ys + [y])[|ys + [y]| - 1];
    }
  }

  lemma ParseOneMoreIff(k: Kind, pieces: seq<string>, piece: string, xs: seq<Element>, x: Element)
    ensures ParseAll(k, pieces + [piece]) == Ok(xs + [x])
        <==> ParseAll(k, pieces) == Ok(xs) && ParseElement(k, piece) == Ok(x)
  {
    ParseSnoc(k, pieces, piece);
    var before, last := ParseAll(k, pieces), ParseElement(k, piece);
    if before.Ok? && last.Ok? {
      SnocInjective(before.value, last.value, xs, x);
    }
  }

  lemma {:induction false} ParseTexts(items: seq<string>)
    ensures ParseAll(Text, items) == Ok(Texts(items))
  {
    if items == [] {
      assert Texts(items) == [];
    } else {
      var init, last := items[..|items| - 1], items[|items| - 1];
      ParseTexts(init);
      assert items == init + [last] && Texts(items) == Texts(init) + [Str(last)];
      ParseOneMoreIff(Text, init, last, Texts(init), Str(last));
    }
  }

  lemma {:induction false} SplitIsCommaFree(s: string)
    ensures forall i :: 0 <= i < |Split(s)| ==> CommaFree(Split(s)[i])
  {
    if s != "" {
      SplitIsCommaFree(s[1..]);
    }
  }

  lemma {:induction false} TrimLeftFacts(s: string)
    requires CommaFree(s)
    ensures CommaFree(TrimLeft(s)) && (TrimLeft(s) != "" ==> !IsSpace(TrimLeft(s)[0]))
  {
    if s != "" && IsSpace(s[0]) {
      TrimLeftFacts(s[1..]);
    }
  }

  lemma {:induction false} TrimRightFacts(s: string)
    requires CommaFree(s) && (s != "" ==> !IsSpace(s[0]))
    ensures TrimRight(s) == "" || Item(TrimRight(s))
  {
    if s != "" && IsSpace(s[|s| - 1]) {
      TrimRightFacts(s[..|s| - 1]);
    }
  }

  lemma {:induction false} CleanGivesItems(pieces: seq<string>)
    requires forall i :: 0 <= i < |pieces| ==> CommaFree(pieces[i])
    ensures forall s :: s in Clean(pieces) ==> Item(s)
  {
    if pieces != [] {
      var last := pieces[|pieces| - 1];
      CleanGivesItems(pieces[..|pieces| - 1]);
      TrimLeftFacts(last);
      TrimRightFacts(TrimLeft(last));
    }
  }

  lemma TextsInjective(a: seq<string>, b: seq<string>)
    requires Texts(a) == Texts(b)
    ensures a == b
  {
    assert |a| == |Texts(a)| == |Texts(b)| == |b|;
    forall i | 0 <= i < |a|
      ensures a[i] == b[i]
    {
      assert Texts(a)[i] == Texts(b)[i];
    }
  }

  /**
   A list of texts, in any division into comma-joined parameters,
   parses back exactly when each of them is an item.
   */
  lemma TextRoundTripIff(groups: seq<seq<string>>)
    ensures ParseAll(Text, Pieces(Parameters(groups))) == Ok(Texts(Flatten(groups)))
        <==> forall s :: s in Flatten(groups) ==> Item(s)
  {
    var pieces := Pieces(Parameters(groups));
    ParseTexts(pieces);
    if forall s :: s in Flatten(groups) ==> Item(s) {
      PartitionIrrelevant(groups);
      CleanItems(Flatten(groups));
    }
    if Texts(pieces) == Texts(Flatten(groups)) {
      TextsInjective(pieces, Flatten(groups));
      SplitIsCommaFree(Join(Parameters(groups)));
      CleanGivesItems(Split(Join(Parameters(groups))));
    }
  }

  lemma NumeralIsItem(s: string)
    requires s != "" && forall i :: 0 <= i < |s| ==> s[i] == '-' || Strconv.IsDigit(s[i])
    ensures Item(s)
  {
    assert forall c :: c == '-' || Strconv.IsDigit(c) ==> !IsSpace(c) && c != ',';
  }

  lemma DigitsAreItems(digits: string)
    requires digits != "" && Strconv.AllDigits(digits)
    ensures Item(digits) && Item("-" + digits)
  {
    NumeralIsItem(digits);
    NumeralIsItem("-" + digits);
  }

  lemma RenderedIsItem(n: int)
    ensures Item(Strconv.FormatInt(n))
  {
    var u := if n < 0 then -n else n;
    Strconv.FormatUintDigits(u);
    DigitsAreItems(Strconv.FormatUint(u));
  }

  /** The 64-bit kind of the same sign, in which every element is parsed first. */
  function Widest(k: Kind): Kind
    requires Integral(k)
  {
    if k.Signed? then Signed(W64) else Unsigned(W64)
  }

  /** A rendered integer is accepted exactly when it fits 64 bits of its sign, and then as what its type keeps of it. */
  lemma AcceptedIff(k: Kind, n: int)
    requires Integral(k)
    ensures ParseElement(k, Strconv.FormatInt(n)).Ok? <==> Fits(n, Widest(k))
    ensures Fits(n, Widest(k)) ==> ParseElement(k, Strconv.FormatInt(n)) == Ok(Num(Wrapped(n, k)))
  {
    if k.Signed? {
      Strconv.IntRoundTrip(n);
    } else if n < 0 {
      NegativeIsNoUint(n);
    } else {
      Strconv.UintRoundTrip(n);
    }
  }

  lemma NarrowerFits(k: Kind, n: int)
    requires Integral(k) && Fits(n, k)
    ensures Fits(n, Widest(k))
  {
    match k
    case Signed(w) => match w { case W8 => case W16 => case W32 => case W64 => }
    case Unsigned(w) => match w { case W8 => case W16 => case W32 => case W64 => }
  }

  /** An integer survives rendering, parsing and conversion exactly when it fits the element type. */
  lemma ElementRoundTripIff(k: Kind, n: int)
    requires Integral(k)
    ensures ParseElement(k, Strconv.FormatInt(n)) == Ok(Num(n)) <==> Fits(n, k)
  {
    WrappedIffFits(n, k);
    AcceptedIff(k, n);
    if Fits(n, k) {
      NarrowerFits(k, n);
    }
  }

  lemma NegativeIsNoUint(n: int)
    requires n < 0
    ensures Strconv.ParseUint(Strconv.FormatInt(n)) == None
  {
    assert Strconv.FormatInt(n)[0] == '-';
  }

  predicate AllFit(ns: seq<int>, k: Kind) {
    forall i :: 0 <= i < |ns| ==> Fits(ns[i], k)
  }

  lemma AllFitStep(ns: seq<int>, n: int, k: Kind)
    ensures AllFit(ns + [n], k) <==> AllFit(ns, k) && Fits(n, k)
  {
    if AllFit(ns + [n], k) {
      assert forall i :: 0 <= i < |ns| ==> (ns + [n])[i] == ns[i];
      assert (ns + [n])[|ns|] == n;
    }
  }

  lemma {:induction false} ParseNumbersIff(k: Kind, ns: seq<int>)
    requires Integral(k)
    ensures ParseAll(k, Rendered(ns)) == Ok(Numbers(ns)) <==> AllFit(ns, k)
  {
    if ns == [] {
      assert Numbers(ns) == [] && Rendered(ns) == [];
    } else {
      var init, last := ns[..|ns| - 1], ns[|ns| - 1];
      assert ns == init + [last];
      ParseNumbersIff(k, init);
      ElementRoundTripIff(k, last);
      AllFitStep(init, last, k);
      assert Rendered(ns) == Rendered(init) + [Strconv.FormatInt(last)];
      assert Numbers(ns) == Numbers(init) + [Num(last)];
      ParseOneMoreIff(k, Rendered(init), Strconv.FormatInt(last), Numbers(init), Num(last));
    }
  }

  /** A list of integers in any division into parameters parses back exactly when every one fits the element type. */
  lemma IntegerRoundTripIff(k: Kind, ns: seq<int>, groups: seq<seq<string>>)
    requires Integral(k) && Flatten(groups) == Rendered(ns)
    ensures ParseAll(k, Pieces(Parameters(groups))) == Ok(Numbers(ns)) <==> AllFit(ns, k)
  {
    forall i | 0 <= i < |ns| {
      RenderedIsItem(ns[i]);
    }
    PartitionIrrelevant(groups);
    CleanItems(Rendered(ns));
    ParseNumbersIff(k, ns);
  }

  /** What an integer type keeps of a number: the value in its range that differs by a multiple of its size. */
  lemma WrappedExactly(n: int, k: Kind) returns (q: int)
    requires Integral(k)
    ensures k == Signed(W8) ==> -0x80 <= Wrapped(n, k) < 0x80 && n == Wrapped(n, k) + 0x100 * q
    ensures k == Signed(W16) ==> -0x8000 <= Wrapped(n, k) < 0x8000 && n == Wrapped(n, k) + 0x1_0000 * q
    ensures k == Signed(W32) ==>
      -0x8000_0000 <= Wrapped(n, k) < 0x8000_0000 && n == Wrapped(n, k) + 0x1_0000_0000 * q
    ensures k == Unsigned(W8) ==> 0 <= Wrapped(n, k) < 0x100 && n == Wrapped(n, k) + 0x100 * q
    ensures k == Unsigned(W16) ==> 0 <= Wrapped(n, k) < 0x1_0000 && n == Wrapped(n, k) + 0x1_0000 * q
    ensures k == Unsigned(W32) ==> 0 <= Wrapped(n, k) < 0x1_0000_0000 && n == Wrapped(n, k) + 0x1_0000_0000 * q
  {
    match k
    case Signed(w) => q := (n + Values(w) / 2) / Values(w);
    case Unsigned(w) => q := n / Values(w);
  }

  /** The widest types hold the 64-bit ranges, and keep what is in them. */
  lemma WidestExactly(n: int)
    ensures Fits(n, Signed(W64)) <==> -0x8000_0000_0000_0000 <= n < 0x8000_0000_0000_0000
    ensures Fits(n, Unsigned(W64)) <==> 0 <= n < 0x1_0000_0000_0000_0000
    ensures Fits(n, Signed(W64)) ==> Wrapped(n, Signed(W64)) == n
    ensures Fits(n, Unsigned(W64)) ==> Wrapped(n, Unsigned(W64)) == n
  {
    WrappedIffFits(n, Signed(W64));
    WrappedIffFits(n, Unsigned(W64));
  }

  /** The error of a list is that of its first bad element. */
  lemma FirstBadElement(k: Kind, good: seq<string>, bad: string, rest: seq<string>)
    requires ParseAll(k, good).Ok? && ParseElement(k, bad).Err?
    ensures ParseAll(k, good + [bad] + rest) == Err(ParseElement(k, bad).error)
  {
    ParseSnoc(k, good, bad);
    ErrorStays(k, good + [bad], good + [bad] + rest);
  }

  /** A field that is not exported, has no tag, or whose parameter is absent or empty keeps its value. */
  lemma UntouchedField(d: Declaration, value: Value, q: Query)
    requires
      || !d.exported || d.tag == ""
      || (d.fieldType.ScalarField? && !d.fieldType.k.Other? && (d.tag in q && q[d.tag] != [] ==> q[d.tag][0] == ""))
      || (d.fieldType.SliceField? && (d.tag in q ==> q[d.tag] == []))
    ensures FieldResult(d, value, q) == Ok(value)
  {
  }

  /** Of a repeated scalar parameter the first value counts. */
  lemma FirstValueCounts(d: Declaration, value: Value, q: Query, k: Kind)
    requires d.exported && d.tag != "" && d.fieldType == ScalarField(k)
    requires d.tag in q && q[d.tag] != [] && q[d.tag][0] != ""
    ensures k.Text? ==> FieldResult(d, value, q) == Ok(Scalar(Str(q[d.tag][0])))
    ensures Integral(k) ==>
      forall n :: q[d.tag][0] == Strconv.FormatInt(n) ==>
        && (FieldResult(d, value, q).Ok? <==> Fits(n, Widest(k)))
        && (Fits(n, Widest(k)) ==> FieldResult(d, value, q) == Ok(Scalar(Num(Wrapped(n, k)))))
  {
    if Integral(k) {
      forall n | q[d.tag][0] == Strconv.FormatInt(n)
        ensures FieldResult(d, value, q).Ok? <==> Fits(n, Widest(k))
        ensures Fits(n, Widest(k)) ==> FieldResult(d, value, q) == Ok(Scalar(Num(Wrapped(n, k))))
      {
        AcceptedIff(k, n);
      }
    }
  }

  /** 300 in a list of 8-bit integers is accepted as 44. */
  lemma NarrowCounterexample()
    ensures ParseElement(Signed(W8), "300") == Ok(Num(44))
  {
    assert "300"[..2] == "30" && "30"[..1] == "3" && "3"[..0] == "";
    assert Strconv.DigitsValue("30") == 30;
    assert Strconv.DigitsValue("300") == 300;
  }
}
