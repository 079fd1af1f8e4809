/** browser_element_resolver.py: writing any string as an XPath 1.0 string expression, and
    the fragment of XPath 1.0 that reads it back. */
module XPathLiteral {
  import opened Sorting

  const APOS := '\''
  const QUOTE := '\"'

  /* Reading: Literal (section 3.7 of XPath 1.0) and concat (section 4.2). */

  /** The text before the first `q`, and what follows it. */
  function TakeUntil(s: string, q: char): Option<(string, string)> {
    if s == [] then None
    else if s[0] == q then Some(([], s[1..]))
    else
      match TakeUntil(s[1..], q)
      case None => None
      case Some((taken, rest)) => Some(([s[0]] + taken, rest))
  }

  /** A quoted literal: it ends at the next occurrence of its opening quote. */
  function ParseLiteral(s: string): Option<(string, string)> {
    if s == [] || (s[0] != APOS && s[0] != QUOTE) then None else TakeUntil(s[1..], s[0])
  }

  function SkipSpace(s: string): (rest: string)
    ensures |rest| <= |s|
  {
    if s != [] && s[0] == ' ' then SkipSpace(s[1..]) else s
  }

  lemma {:induction false} TakenIsShorter(s: string, q: char)
    ensures TakeUntil(s, q).Some? ==> |TakeUntil(s, q).value.1| < |s|
  {
    if s != [] && s[0] != q {
      TakenIsShorter(s[1..], q);
    }
  }

  /** Literals separated by commas up to the closing parenthesis, and what follows it. */
  function ParseArguments(s: string): Option<(seq<string>, string)>
    decreases |s|
  {
    var start := SkipSpace(s);
    match ParseLiteral(start)
    case None => None
    case Some((value, after)) =>
      TakenIsShorter(start[1..], start[0]);
      var rest := SkipSpace(after);
      if rest == [] then None
      else if rest[0] == ')' then Some(([value], rest[1..]))
      else if rest[0] == ',' then
        match ParseArguments(rest[1..])
        case None => None
        case Some((values, tail)) => Some(([value] + values, tail))
      else None
  }

  const CALL := "concat("

  function Flatten(parts: seq<string>): string {
    if parts == [] then [] else parts[0] + Flatten(parts[1..])
  }

  /** The string an expression denotes; concat needs at least two arguments. */
  function Evaluate(text: string): Option<string> {
    if CALL <= text then
      match ParseArguments(text[|CALL|..])
      case None => None
      case Some((values, rest)) => if rest == [] && |values| >= 2 then Some(Flatten(values)) else None
    else
      match ParseLiteral(text)
      case None => None
      case Some((value, rest)) => if rest == [] then Some(value) else None
  }

  /* Writing. */

  function Split(s: string, q: char): (parts: seq<string>)
    ensures |parts| > 0
  {
    if s == [] then [[]]
    else if s[0] == q then [[]] + Split(s[1..], q)
    else
      var rest := Split(s[1..], q);
      [[s[0]] + rest[0]] + rest[1..]
  }

  /** The values the arguments stand for: each non-empty part, with a `q` between parts. */
  function Pieces(parts: seq<string>, q: char): seq<string>
    decreases |parts|, 1
  {
    if parts == [] then []
    else if parts[0] == [] then PiecesAfter(parts, q)
    else [parts[0]] + PiecesAfter(parts, q)
  }

  function PiecesAfter(parts: seq<string>, q: char): seq<string>
    requires parts != []
    decreases |parts|, 0
  {
    if |parts| > 1 then [[q]] + Pieces(parts[1..], q) else []
  }

  function Quoted(value: string): string {
    if APOS in value then [QUOTE] + value + [QUOTE] else [APOS] + value + [APOS]
  }

  function Render(values: seq<string>): string {
    if values == [] then []
    else if |values| == 1 then Quoted(values[0])
    else Quoted(values[0]) + ", " + Render(values[1..])
  }

  lemma {:induction false} SplitProperties(s: string, q: char)
    ensures forall p :: p in Split(s, q) ==> q !in p
    ensures |Split(s, q)| >= 2 <==> q in s
    ensures Flatten(Pieces(Split(s, q), q)) == s
  {
    if s != [] {
      var rest := Split(s[1..], q);
      SplitProperties(s[1..], q);
      assert s == [s[0]] + s[1..];
      if s[0] == q {
        assert Pieces(Split(s, q), q) == [[q]] + Pieces(rest, q);
      } else {
        var parts := [[s[0]] + rest[0]] + rest[1..];
        assert parts[1..] == rest[1..];
        FlattenHead(parts, rest, q, s[0]);
      }
    }
  }

  lemma FlattenCons(x: string, tail: seq<string>)
    ensures Flatten([x] + tail) == x + Flatten(tail)
  {
    assert ([x] + tail)[1..] == tail;
  }

  lemma FlattenHead(parts: seq<string>, rest: seq<string>, q: char, c: char)
    requires |parts| == |rest| > 0 && parts[0] == [c] + rest[0] && parts[1..] == rest[1..]
    ensures Flatten(Pieces(parts, q)) == [c] + Flatten(Pieces(rest, q))
  {
    var tail := PiecesAfter(parts, q);
    assert PiecesAfter(rest, q) == tail;
    FlattenPieces(parts, q);
    FlattenPieces(rest, q);
    assert [c] + (rest[0] + Flatten(tail)) == parts[0] + Flatten(tail);
  }

  lemma FlattenPieces(parts: seq<string>, q: char)
    requires parts != []
    ensures Flatten(Pieces(parts, q)) == parts[0] + Flatten(PiecesAfter(parts, q))
  {
    FlattenCons(parts[0], PiecesAfter(parts, q));
    assert [] + Flatten(PiecesAfter(parts, q)) == Flatten(PiecesAfter(parts, q));
  }

  lemma {:induction false} SplitKeepsOthers(s: string, q: char, c: char)
    requires c in s && c != q
    ensures exists p :: p in Split(s, q) && p != []
  {
    if s[0] == q {
      SplitKeepsOthers(s[1..], q, c);
      var p :| p in Split(s[1..], q) && p != [];
      assert p in Split(s, q);
    } else {
      assert Split(s, q)[0] != [] && Split(s, q)[0] in Split(s, q);
    }
  }

  lemma {:induction false} TakesQuoted(value: string, q: char, rest: string)
    requires q !in value
    ensures TakeUntil(value + [q] + rest, q) == Some((value, rest))
  {
    var s := value + [q] + rest;
    if value == [] {
      assert s[1..] == rest;
    } else {
      TakesQuoted(value[1..], q, rest);
      assert s[0] == value[0] && s[1..] == value[1..] + [q] + rest;
      assert [value[0]] + value[1..] == value;
    }
  }

  /** A value that avoids one of the quotes is read back from its quoted form. */
  lemma ParsesQuoted(value: string, rest: string)
    requires Quotable(value)
    ensures ParseLiteral(Quoted(value) + rest) == Some((value, rest))
  {
    var q := if APOS in value then QUOTE else APOS;
    var s := Quoted(value) + rest;
    assert s[0] == q && s[1..] == value + [q] + rest;
    TakesQuoted(value, q, rest);
  }

  predicate Quotable(value: string) {
    APOS !in value || QUOTE !in value
  }

  lemma ParsesLast(value: string)
    requires Quotable(value)
    ensures ParseArguments(Quoted(value) + ")") == Some(([value], ""))
  {
    var s := Quoted(value) + ")";
    ParsesQuoted(value, ")");
    assert SkipSpace(s) == s && SkipSpace(")") == ")" && ")"[1..] == "";
  }

  lemma ParsesNext(value: string, more: string, values: seq<string>)
    requires Quotable(value) && ParseArguments(" " + more) == Some((values, ""))
    ensures ParseArguments(Quoted(value) + ", " + more) == Some(([value] + values, ""))
  {
    var tail := ", " + more;
    var s := Quoted(value) + tail;
    assert Quoted(value) + ", " + more == s;
    ParsesQuoted(value, tail);
    assert s[0] == Quoted(value)[0];
    assert tail == "," + (" " + more);
    CommaContinues(s, value, " " + more, values);
  }

  lemma CommaContinues(s: string, value: string, rest: string, values: seq<string>)
    requires s != [] && s[0] != ' ' && ParseLiteral(s) == Some((value, "," + rest))
    requires ParseArguments(rest) == Some((values, ""))
    ensures ParseArguments(s) == Some(([value] + values, ""))
  {
    var after := "," + rest;
    assert SkipSpace(s) == s && SkipSpace(after) == after;
    assert after[0] == ',' && after[1..] == rest;
  }

  lemma SkipsOneSpace(s: string)
    requires s != [] && s[0] != ' '
    ensures ParseArguments(" " + s) == ParseArguments(s)
  {
    assert (" " + s)[1..] == s;
    assert SkipSpace(" " + s) == SkipSpace(s) == s;
  }

  lemma {:induction false} ParsesArguments(values: seq<string>)
    requires values != [] && forall v :: v in values ==> Quotable(v)
    ensures ParseArguments(Render(values) + ")") == Some((values, ""))
  {
    if |values| == 1 {
      ParsesLast(values[0]);
      assert values == [values[0]];
    } else {
      var more := Render(values[1..]) + ")";
      assert forall v :: v in values[1..] ==> v in values;
      ParsesArguments(values[1..]);
      assert more[0] == Quoted(values[1])[0];
      SkipsOneSpace(more);
      ParsesNext(values[0], more, values[1..]);
      assert Render(values) + ")" == Quoted(values[0]) + ", " + more;
      assert values == [values[0]] + values[1..];
    }
  }

  /* The printer. */

  /** The argument list built part by part, as the values it stands for. */
  method ConcatArguments(parts: seq<string>) returns (arguments: seq<string>)
    requires forall p :: p in parts ==> APOS !in p
    ensures |arguments| == |Pieces(parts, APOS)|
    ensures forall i :: 0 <= i < |arguments| ==> arguments[i] == Quoted(Pieces(parts, APOS)[i])
  {
    arguments := [];
    assert parts[0..] == parts;
    for index := 0 to |parts|
      invariant |arguments| + |Pieces(parts[index..], APOS)| == |Pieces(parts, APOS)|
      invariant Pieces(parts, APOS)[|arguments|..] == Pieces(parts[index..], APOS)
      invariant forall i :: 0 <= i < |arguments| ==> arguments[i] == Quoted(Pieces(parts, APOS)[i])
    {
      var part := parts[index];
      assert part in parts && parts[index..][1..] == parts[index + 1..];
      ghost var here := (if part != [] then [part] else []) + (if index < |parts| - 1 then [[APOS]] else []);
      assert Pieces(parts[index..], APOS) == here + Pieces(parts[index + 1..], APOS);
      TakesNext(Pieces(parts, APOS), |arguments|, here, Pieces(parts[index + 1..], APOS));
      if part != [] {
        arguments := arguments + [[APOS] + part + [APOS]];
      }
      if index < |parts| - 1 {
        arguments := arguments + [[QUOTE] + [APOS] + [QUOTE]];
      }
    }
  }

  lemma TakesNext(all: seq<string>, n: nat, here: seq<string>, rest: seq<string>)
    requires n <= |all| && all[n..] == here + rest
    ensures n + |here| <= |all| && all[n + |here|..] == rest
    ensures forall i :: 0 <= i < |here| ==> all[n + i] == here[i]
  {
    assert |all[n..]| == |here| + |rest|;
    assert forall i :: 0 <= i < |here| ==> all[n + i] == all[n..][i];
    assert all[n + |here|..] == all[n..][|here|..];
  }

  function Join(arguments: seq<string>): string {
    if arguments == [] then []
    else if |arguments| == 1 then arguments[0]
    else arguments[0] + ", " + Join(arguments[1..])
  }

  lemma {:induction false} JoinRenders(arguments: seq<string>, values: seq<string>)
    requires |arguments| == |values| && forall i :: 0 <= i < |values| ==> arguments[i] == Quoted(values[i])
    ensures Join(arguments) == Render(values)
  {
    if |values| > 1 {
      JoinRenders(arguments[1..], values[1..]);
    }
  }

  lemma {:induction false} PiecesQuotable(parts: seq<string>)
    requires forall p :: p in parts ==> APOS !in p
    ensures forall v :: v in Pieces(parts, APOS) ==> Quotable(v)
    ensures |parts| >= 2 && (exists p :: p in parts && p != []) ==> |Pieces(parts, APOS)| >= 2
    ensures |parts| >= 2 ==> |Pieces(parts, APOS)| >= 1
    ensures (exists p :: p in parts && p != []) ==> |Pieces(parts, APOS)| >= 1
  {
    if parts != [] {
      assert parts[0] in parts && parts == [parts[0]] + parts[1..];
      PiecesQuotable(parts[1..]);
    }
  }

  /** Whatever the string, the expression written for it denotes that string. */
  method XPathStringLiteral(value: string) returns (text: string)
    ensures Evaluate(text) == Some(value)
  {
    if APOS !in value {
      text := [APOS] + value + [APOS];
      ParsesQuoted(value, "");
      assert Quoted(value) + "" == text;
      return;
    }
    if QUOTE !in value {
      text := [QUOTE] + value + [QUOTE];
      ParsesQuoted(value, "");
      assert Quoted(value) + "" == text;
      return;
    }
    var parts := Split(value, APOS);
    SplitProperties(value, APOS);
    SplitKeepsOthers(value, APOS, QUOTE);
    PiecesQuotable(parts);
    var arguments := ConcatArguments(parts);
    JoinRenders(arguments, Pieces(parts, APOS));
    ParsesArguments(Pieces(parts, APOS));
    text := CALL + Join(arguments) + ")";
    assert text[|CALL|..] == Join(arguments) + ")";
  }
}
