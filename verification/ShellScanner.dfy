/**
 The scanner that finds command substitutions in workflow scripts, and the recursive verdict on
 whether a script changes the running system. Mirrors _backtick_substitution,
 _parenthesized_substitution, _shell_substitutions and _script_mutates in tools/workflow_policy.py.

 The functions say what each scan finds; the methods are the loops that find it. Three things are
 proved about them. Scanning always moves forward and every body it returns is a proper part of the
 text, so the recursive verdict terminates. A mutation at any depth of nesting decides the verdict,
 and the verdict has no other cause. And on scripts written out from a structure of quotes, escapes,
 groups and nested substitutions, scanning reads back exactly the substitutions of that structure.
 The last theorem walks both scans over the pieces; what one step does at each kind of piece is
 collected at the end.
 */
module ShellScanner {
  import opened Basics

  datatype Quote = Bare | Single | Double

  /** A `$(`, `<(` or `>(` starts here. */
  predicate OpensAt(v: string, i: nat) { i + 1 < |v| && v[i] in "$<>" && v[i + 1] == '(' }

  /** A backslash that escapes the next character. */
  predicate EscapesAt(v: string, i: nat) { i + 1 < |v| && v[i] == '\\' }

  /* ---------- what the scans find ---------- */

  /** Where the backtick that closes a substitution is, looking from `i` on. */
  function BacktickClose(v: string, i: nat): (r: Option<nat>)
    ensures r.Some? ==> i <= r.value < |v| && v[r.value] == '`'
    decreases |v| - i
  {
    if i >= |v| then None
    else if EscapesAt(v, i) then BacktickClose(v, i + 2)
    else if v[i] == '`' then Some(i)
    else BacktickClose(v, i + 1)
  }

  /** Where the parenthesis that closes a substitution is. */
  function ParenClose(v: string, i: nat, depth: nat, quote: Quote): (r: Option<nat>)
    requires depth > 0
    ensures r.Some? ==> i <= r.value < |v| && v[r.value] == ')'
    decreases |v| - i
  {
    if i >= |v| then None
    else if quote == Single then ParenClose(v, i + 1, depth, if v[i] == '\'' then Bare else Single)
    else if EscapesAt(v, i) then ParenClose(v, i + 2, depth, quote)
    else if v[i] == '"' then ParenClose(v, i + 1, depth, if quote == Double then Bare else Double)
    else if v[i] == '\'' && quote == Bare then ParenClose(v, i + 1, depth, Single)
    else if v[i] == '`' then
      var close := BacktickClose(v, i + 1);
      if close.None? then None else ParenClose(v, close.value + 1, depth, quote)
    else if OpensAt(v, i) then
      var close := ParenClose(v, i + 2, 1, Bare);
      if close.None? then None else ParenClose(v, close.value + 1, depth, quote)
    else if quote == Bare && v[i] == '(' then ParenClose(v, i + 1, depth + 1, quote)
    else if quote == Bare && v[i] == ')' then if depth == 1 then Some(i) else ParenClose(v, i + 1, depth - 1, quote)
    else ParenClose(v, i + 1, depth, quote)
  }

  /** The bodies of the outermost substitutions from `i` on, and whether one is never closed. */
  function Substitutions(v: string, i: nat, quote: Quote): (r: (seq<string>, bool))
    ensures forall b :: b in r.0 ==> |b| + 2 <= |v|
    decreases |v| - i
  {
    if i >= |v| then ([], false)
    else if quote == Single then Substitutions(v, i + 1, if v[i] == '\'' then Bare else Single)
    else if EscapesAt(v, i) then Substitutions(v, i + 2, quote)
    else if v[i] == '"' then Substitutions(v, i + 1, if quote == Double then Bare else Double)
    else if v[i] == '\'' && quote == Bare then Substitutions(v, i + 1, Single)
    else if v[i] == '`' then
      var close := BacktickClose(v, i + 1);
      if close.None? then ([], true) else Prepend(v[i + 1..close.value], Substitutions(v, close.value + 1, quote))
    else if OpensAt(v, i) then
      var close := ParenClose(v, i + 2, 1, Bare);
      if close.None? then ([], true) else Prepend(v[i + 2..close.value], Substitutions(v, close.value + 1, quote))
    else Substitutions(v, i + 1, quote)
  }

  function Prepend(body: string, rest: (seq<string>, bool)): (seq<string>, bool) { ([body] + rest.0, rest.1) }

  /* ---------- line continuations ---------- */

  predicate IsBlank(c: char) { c == ' ' || c == '\t' }

  function Blanks(v: string): (n: nat)
    ensures n <= |v|
  {
    if v != "" && IsBlank(v[0]) then 1 + Blanks(v[1..]) else 0
  }

  /** The length of the line end a text starts with and of the indentation after it; 0 when it starts with none. */
  function LineBreak(v: string): (n: nat)
    ensures n <= |v|
  {
    if |v| >= 1 && v[0] == '\n' then 1 + Blanks(v[1..])
    else if |v| >= 2 && v[0] == '\r' && v[1] == '\n' then 2 + Blanks(v[2..])
    else 0
  }

  /** Every backslash or backtick before a line end becomes one space, together with the line end and the indentation after it. */
  function Normalized(v: string): (r: string)
    ensures |r| <= |v|
  {
    if v == "" then ""
    else if v[0] in "\\`" && LineBreak(v[1..]) > 0 then " " + Normalized(v[1 + LineBreak(v[1..])..])
    else [v[0]] + Normalized(v[1..])
  }

  /* ---------- the verdict ---------- */

  /** `segments` is the verdict on the commands of one already normalized script. */
  function ScriptMutates(v: string, segments: string -> bool): bool
    decreases |v|
  {
    var found := Substitutions(Normalized(v), 0, Bare);
    found.1 || (exists i :: 0 <= i < |found.0| && ScriptMutates(found.0[i], segments)) || segments(Normalized(v))
  }

  /** `inner` is a substitution of `outer`, or of a substitution of it, and so on. */
  ghost predicate Nested(inner: string, outer: string)
    decreases |outer|
  {
    inner == outer || exists i ::
      0 <= i < |Substitutions(Normalized(outer), 0, Bare).0| && Nested(inner, Substitutions(Normalized(outer), 0, Bare).0[i])
  }

  /** A mutating substitution at any depth makes the whole script mutating. */
  lemma {:induction false} NestedMutationIsNoticed(inner: string, outer: string, segments: string -> bool)
    requires Nested(inner, outer) && ScriptMutates(inner, segments)
    ensures ScriptMutates(outer, segments)
    decreases |outer|
  {
    if inner != outer {
      var bodies := Substitutions(Normalized(outer), 0, Bare).0;
      var i :| 0 <= i < |bodies| && Nested(inner, bodies[i]);
      assert bodies[i] in bodies;
      NestedMutationIsNoticed(inner, bodies[i], segments);
    }
  }

  /** And that is the only way: some nested script is malformed or has a mutating command itself. */
  lemma {:induction false} MutationHasACause(v: string, segments: string -> bool)
    requires ScriptMutates(v, segments)
    ensures exists inner :: Nested(inner, v) && (Substitutions(Normalized(inner), 0, Bare).1 || segments(Normalized(inner)))
    decreases |v|
  {
    var found := Substitutions(Normalized(v), 0, Bare);
    if found.1 || segments(Normalized(v)) {
      assert Nested(v, v);
    } else {
      var i :| 0 <= i < |found.0| && ScriptMutates(found.0[i], segments);
      assert found.0[i] in found.0;
      MutationHasACause(found.0[i], segments);
      var inner :| Nested(inner, found.0[i]) && (Substitutions(Normalized(inner), 0, Bare).1 || segments(Normalized(inner)));
      assert Nested(inner, v);
    }
  }

  /* ---------- the loops ---------- */

  method BacktickSubstitution(v: string, start: nat) returns (body: Option<string>, end: nat)
    requires start < |v|
    ensures var close := BacktickClose(v, start + 1);
      if close.None? then body.None? && end == |v| else body == Some(v[start + 1..close.value]) && end == close.value + 1
    ensures start < end <= |v| && (body.Some? ==> |body.value| + 2 == end - start)
  {
    var index := start + 1;
    while index < |v|
      invariant start < index && BacktickClose(v, index) == BacktickClose(v, start + 1)
      invariant index <= |v|
    {
      if v[index] == '\\' && index + 1 < |v| {
        index := index + 2;
        continue;
      }
      if v[index] == '`' { return Some(v[start + 1..index]), index + 1; }
      index := index + 1;
    }
    return None, |v|;
  }

  method ParenthesizedSubstitution(v: string, start: nat) returns (body: Option<string>, end: nat)
    requires OpensAt(v, start)
    ensures var close := ParenClose(v, start + 2, 1, Bare);
      if close.None? then body.None? && end == |v| else body == Some(v[start + 2..close.value]) && end == close.value + 1
    ensures start < end <= |v| && (body.Some? ==> |body.value| + 3 == end - start)
    decreases |v| - start
  {
    var index := start + 2;
    var depth := 1;
    var quote := Bare;
    while index < |v|
      invariant start + 2 <= index <= |v| && depth > 0
      invariant ParenClose(v, index, depth, quote) == ParenClose(v, start + 2, 1, Bare)
      decreases |v| - index
    {
      var c := v[index];
      if quote == Single {
        if c == '\'' { quote := Bare; }
        index := index + 1;
        continue;
      }
      if c == '\\' && index + 1 < |v| {
        index := index + 2;
        continue;
      }
      if c == '"' {
        quote := if quote == Double then Bare else Double;
        index := index + 1;
        continue;
      }
      if c == '\'' && quote == Bare {
        quote := Single;
        index := index + 1;
        continue;
      }
      if c == '`' {
        var inner, after := BacktickSubstitution(v, index);
        if inner.None? { return None, |v|; }
        index := after;
        continue;
      }
      if OpensAt(v, index) {
        var inner, after := ParenthesizedSubstitution(v, index);
        if inner.None? { return None, |v|; }
        index := after;
        continue;
      }
      if quote == Bare {
        if c == '(' {
          depth := depth + 1;
        } else if c == ')' {
          depth := depth - 1;
          if depth == 0 { return Some(v[start + 2..index]), index + 1; }
        }
      }
      index := index + 1;
    }
    return None, |v|;
  }

  method ShellSubstitutions(v: string) returns (bodies: seq<string>, malformed: bool)
    ensures (bodies, malformed) == Substitutions(v, 0, Bare)
    ensures forall b :: b in bodies ==> |b| < |v|
  {
    bodies := [];
    var index := 0;
    var quote := Bare;
    assert [] + Substitutions(v, 0, Bare).0 == Substitutions(v, 0, Bare).0;
    while index < |v|
      invariant index <= |v|
      invariant Substitutions(v, 0, Bare) == (bodies + Substitutions(v, index, quote).0, Substitutions(v, index, quote).1)
      decreases |v| - index
    {
      var c := v[index];
      if quote == Single {
        if c == '\'' { quote := Bare; }
        index := index + 1;
        continue;
      }
      if c == '\\' && index + 1 < |v| {
        index := index + 2;
        continue;
      }
      if c == '"' {
        quote := if quote == Double then Bare else Double;
        index := index + 1;
        continue;
      }
      if c == '\'' && quote == Bare {
        quote := Single;
        index := index + 1;
        continue;
      }
      if c == '`' {
        var body, end := BacktickSubstitution(v, index);
        if body.None? {
          assert Substitutions(v, index, quote).0 == [] && bodies + [] == bodies;
          return bodies, true;
        }
        assert Substitutions(v, index, quote) == Prepend(body.value, Substitutions(v, end, quote));
        assert bodies + ([body.value] + Substitutions(v, end, quote).0) == (bodies + [body.value]) + Substitutions(v, end, quote).0;
        bodies := bodies + [body.value];
        index := end;
        continue;
      }
      if OpensAt(v, index) {
        var body, end := ParenthesizedSubstitution(v, index);
        if body.None? {
          assert Substitutions(v, index, quote).0 == [] && bodies + [] == bodies;
          return bodies, true;
        }
        assert Substitutions(v, index, quote) == Prepend(body.value, Substitutions(v, end, quote));
        assert bodies + ([body.value] + Substitutions(v, end, quote).0) == (bodies + [body.value]) + Substitutions(v, end, quote).0;
        bodies := bodies + [body.value];
        index := end;
        continue;
      }
      index := index + 1;
    }
    assert bodies + [] == bodies;
    return bodies, false;
  }

  method DecideMutation(v: string, segments: string -> bool) returns (mutates: bool)
    ensures mutates == ScriptMutates(v, segments)
    decreases |v|
  {
    var normalized := Normalized(v);
    var bodies, malformed := ShellSubstitutions(normalized);
    if malformed { return true; }
    var i := 0;
    while i < |bodies|
      invariant i <= |bodies| && forall k :: 0 <= k < i ==> !ScriptMutates(bodies[k], segments)
    {
      assert bodies[i] in bodies;
      var nested := DecideMutation(bodies[i], segments);
      if nested { return true; }
      i := i + 1;
    }
    return segments(normalized);
  }

  /* ---------- scripts written from their structure ---------- */

  /** The parts of a script. The units of a `Tick` are plain and escaped characters. */
  datatype Piece =
    | Plain(c: char)
    | Escaped(c: char)
    | Quoted(text: string)
    | DoubleQuoted(pieces: seq<Piece>)
    | Tick(units: seq<Piece>)
    | Sub(opener: char, pieces: seq<Piece>)
    | Group(pieces: seq<Piece>)

  function Print(p: Piece): string
    decreases p, 0
  {
    match p
    case Plain(c) => [c]
    case Escaped(c) => ['\\', c]
    case Quoted(text) => "'" + text + "'"
    case DoubleQuoted(pieces) => "\"" + PrintAll(pieces) + "\""
    case Tick(units) => "`" + PrintAll(units) + "`"
    case Sub(opener, pieces) => [opener, '('] + PrintAll(pieces) + ")"
    case Group(pieces) => "(" + PrintAll(pieces) + ")"
  }

  function PrintAll(pieces: seq<Piece>): string
    decreases pieces, 1
  {
    if pieces == [] then "" else Print(pieces[0]) + PrintAll(pieces[1..])
  }

  predicate StartsWithParen(pieces: seq<Piece>) { pieces != [] && (pieces[0].Group? || pieces[0] == Plain('(')) }

  /** Pieces that can be written in this quoting and read back: special characters only in their own pieces. */
  predicate WellFormed(pieces: seq<Piece>, quote: Quote)
    decreases pieces, 1
  {
    pieces == [] ||
    (WellFormedPiece(pieces[0], quote)
     && (pieces[0].Plain? && pieces[0].c in "$<>" ==> !StartsWithParen(pieces[1..]))
     && WellFormed(pieces[1..], quote))
  }

  predicate WellFormedPiece(p: Piece, quote: Quote)
    decreases p, 0
  {
    match p
    case Plain(c) => c !in "\\\"`" && (quote == Bare ==> c !in "'()")
    case Escaped(_) => true
    case Quoted(text) => quote == Bare && '\'' !in text
    case DoubleQuoted(pieces) => quote == Bare && WellFormed(pieces, Double)
    case Tick(units) => AreUnits(units)
    case Sub(opener, pieces) => opener in "$<>" && WellFormed(pieces, Bare)
    case Group(pieces) => quote == Bare && WellFormed(pieces, Bare)
  }

  /** Characters of a backtick substitution: a backslash or a backtick only as an escape. */
  predicate AreUnits(units: seq<Piece>) {
    forall i :: 0 <= i < |units| ==> units[i].Escaped? || (units[i].Plain? && units[i].c !in "\\`")
  }

  /** The bodies the structure says are substituted, outermost ones only. */
  function Bodies(pieces: seq<Piece>): seq<string>
    decreases pieces, 1
  {
    if pieces == [] then [] else BodiesOf(pieces[0]) + Bodies(pieces[1..])
  }

  function BodiesOf(p: Piece): seq<string>
    decreases p, 0
  {
    match p
    case Tick(units) => [PrintAll(units)]
    case Sub(_, pieces) => [PrintAll(pieces)]
    case DoubleQuoted(pieces) => Bodies(pieces)
    case Group(pieces) => Bodies(pieces)
    case _ => []
  }

  /** `s` is written in `v` at position `i`. */
  predicate At(v: string, i: nat, s: string) { i + |s| <= |v| && v[i..i + |s|] == s }

  lemma AtSplit(v: string, i: nat, a: string, b: string)
    requires At(v, i, a + b)
    ensures At(v, i, a) && At(v, i + |a|, b)
  {
    assert v[i..i + |a|] == (a + b)[..|a|];
    assert v[i + |a|..i + |a| + |b|] == (a + b)[|a|..];
  }

  lemma AtChar(v: string, i: nat, s: string, k: nat)
    requires At(v, i, s) && k < |s|
    ensures v[i + k] == s[k]
  {
  }

  lemma {:induction false} UnitsClose(v: string, i: nat, units: seq<Piece>)
    requires At(v, i, PrintAll(units) + "`") && AreUnits(units)
    ensures BacktickClose(v, i) == Some(i + |PrintAll(units)|)
    decreases |units|
  {
    AtChar(v, i, PrintAll(units) + "`", 0);
    if units != [] {
      var first := Print(units[0]);
      assert PrintAll(units) + "`" == first + (PrintAll(units[1..]) + "`");
      AtSplit(v, i, first, PrintAll(units[1..]) + "`");
      UnitsClose(v, i + |first|, units[1..]);
    }
  }

  lemma {:induction false} QuotedCloses(v: string, i: nat, text: string, depth: nat)
    requires At(v, i, text + "'") && '\'' !in text && depth > 0
    ensures ParenClose(v, i, depth, Single) == ParenClose(v, i + |text| + 1, depth, Bare)
    ensures Substitutions(v, i, Single) == Substitutions(v, i + |text| + 1, Bare)
    decreases |text|
  {
    hide ParenClose, Substitutions, BacktickClose, At;
    TailChar(v, i, text, "'");
    QuotedStep(v, i, depth);
    if text != "" {
      assert text + "'" == [text[0]] + (text[1..] + "'");
      AtSplit(v, i, [text[0]], text[1..] + "'");
      QuotedCloses(v, i + 1, text[1..], depth);
    }
  }

  /** Nothing that could complete an opener follows the position. */
  predicate NoParenAt(v: string, i: nat) { i < |v| ==> v[i] != '(' }

  /** The parenthesis scan walks over well-formed pieces without losing count. */
  lemma {:induction false} ScanPieces(v: string, i: nat, pieces: seq<Piece>, depth: nat, quote: Quote)
    requires WellFormed(pieces, quote) && quote != Single && depth > 0
    requires At(v, i, PrintAll(pieces)) && NoParenAt(v, i + |PrintAll(pieces)|)
    ensures ParenClose(v, i, depth, quote) == ParenClose(v, i + |PrintAll(pieces)|, depth, quote)
    decreases pieces, 1
  {
    hide ParenClose, BacktickClose, Substitutions, At, Bodies;
    if pieces != [] {
      var p, rest := pieces[0], pieces[1..];
      AtSplit(v, i, Print(p), PrintAll(rest));
      if p.Plain? && p.c in "$<>" {
        if PrintAll(rest) != "" {
          PrintStarts(rest, quote);
          AtChar(v, i + 1, PrintAll(rest), 0);
        }
      }
      ScanPiece(v, i, p, depth, quote);
      ScanPieces(v, i + |Print(p)|, rest, depth, quote);
    }
  }

  lemma {:induction false} ScanPiece(v: string, i: nat, p: Piece, depth: nat, quote: Quote)
    requires WellFormedPiece(p, quote) && quote != Single && depth > 0 && At(v, i, Print(p))
    requires p.Plain? && p.c in "$<>" ==> NoParenAt(v, i + 1)
    ensures ParenClose(v, i, depth, quote) == ParenClose(v, i + |Print(p)|, depth, quote)
    decreases p, 1
  {
    hide ParenClose, BacktickClose, Substitutions, At, WellFormed, PrintAll;
    match p {
      case Plain(_) => ScanPlain(v, i, p.c, depth, quote);
      case Escaped(_) => ScanEscaped(v, i, p.c, depth, quote);
      case Quoted(text) =>
        AtFramed(v, i, "'", text, "'");
        AtTail(v, i, "'", text, "'");
        QuotedCloses(v, i + 1, text, depth);
        ScanQuote(v, i, |text|, depth);
      case Tick(units) =>
        AtTail(v, i, "`", PrintAll(units), "`");
        AtFramed(v, i, "`", PrintAll(units), "`");
        UnitsClose(v, i + 1, units);
        ScanTick(v, i, |PrintAll(units)|, depth, quote);
      case _ => ScanNested(v, i, p, depth, quote);
    }
  }

  lemma {:induction false} ScanNested(v: string, i: nat, p: Piece, depth: nat, quote: Quote)
    requires p.DoubleQuoted? || p.Sub? || p.Group?
    requires WellFormedPiece(p, quote) && quote != Single && depth > 0 && At(v, i, Print(p))
    ensures ParenClose(v, i, depth, quote) == ParenClose(v, i + |Print(p)|, depth, quote)
    decreases p, 0
  {
    hide ParenClose, BacktickClose, Substitutions, At, WellFormed, PrintAll;
    match p {
      case DoubleQuoted(inner) =>
        AtFramed(v, i, "\"", PrintAll(inner), "\"");
        ScanPieces(v, i + 1, inner, depth, Double);
        ScanDoubleQuote(v, i, |PrintAll(inner)|, depth);
      case Sub(opener, inner) =>
        AtFramed(v, i, [opener, '('], PrintAll(inner), ")");
        ScanPieces(v, i + 2, inner, 1, Bare);
        ScanSub(v, i, |PrintAll(inner)|, depth, quote);
      case Group(inner) =>
        AtFramed(v, i, "(", PrintAll(inner), ")");
        ScanPieces(v, i + 1, inner, depth + 1, Bare);
        ScanGroup(v, i, |PrintAll(inner)|, depth);
    }
  }

  lemma AtFramed(v: string, i: nat, open: string, body: string, close: string)
    requires At(v, i, open + body + close) && |close| == 1 && 1 <= |open| <= 2
    ensures At(v, i + |open|, body) && i + |open| + |body| < |v| && v[i + |open| + |body|] == close[0]
    ensures v[i] == open[0] && (|open| == 2 ==> v[i + 1] == open[1])
    ensures v[i + |open|..i + |open| + |body|] == body
  {
    AtSplit(v, i, open + body, close);
    AtChar(v, i, open + body + close, 0);
    AtChar(v, i, open + body + close, |open| - 1);
    assert open + body + close == open + (body + close);
    AtSplit(v, i, open, body + close);
    AtSplit(v, i + |open|, body, close);
    AtChar(v, i + |open| + |body|, close, 0);
  }

  /** So a substitution written from its pieces is closed by its own parenthesis. */
  lemma SubCloses(v: string, i: nat, opener: char, pieces: seq<Piece>)
    requires WellFormedPiece(Sub(opener, pieces), Bare) && At(v, i, Print(Sub(opener, pieces)))
    ensures OpensAt(v, i) && ParenClose(v, i + 2, 1, Bare) == Some(i + 2 + |PrintAll(pieces)|)
    ensures v[i + 2..i + 2 + |PrintAll(pieces)|] == PrintAll(pieces)
  {
    hide At, WellFormed, PrintAll, ParenClose;
    AtFramed(v, i, [opener, '('], PrintAll(pieces), ")");
    ScanPieces(v, i + 2, pieces, 1, Bare);
    ClosesHere(v, i + 2 + |PrintAll(pieces)|);
  }

  /** The substitution scan finds, for each piece, exactly the bodies its structure names. */
  lemma {:induction false} FindPieces(v: string, i: nat, pieces: seq<Piece>, quote: Quote)
    requires WellFormed(pieces, quote) && quote != Single
    requires At(v, i, PrintAll(pieces)) && NoParenAt(v, i + |PrintAll(pieces)|)
    ensures Finds(v, i, i + |PrintAll(pieces)|, quote, Bodies(pieces))
    decreases pieces, 1
  {
    hide Substitutions, ParenClose, BacktickClose, Finds, At;
    if pieces == [] {
      FindNothing(v, i, quote);
    } else {
      var p, rest := pieces[0], pieces[1..];
      AtSplit(v, i, Print(p), PrintAll(rest));
      if p.Plain? && p.c in "$<>" {
        if PrintAll(rest) != "" {
          PrintStarts(rest, quote);
          AtChar(v, i + 1, PrintAll(rest), 0);
        }
      }
      FindPiece(v, i, p, quote);
      FindPieces(v, i + |Print(p)|, rest, quote);
      FindBoth(v, i, i + |Print(p)|, i + |PrintAll(pieces)|, quote, BodiesOf(p), Bodies(rest));
    }
  }

  /** Scanning from `i` to `j` collects `bodies` and leaves the quoting as it was. */
  ghost predicate Finds(v: string, i: nat, j: nat, quote: Quote, bodies: seq<string>) {
    var here, there := Substitutions(v, i, quote), Substitutions(v, j, quote);
    here.0 == bodies + there.0 && here.1 == there.1
  }

  lemma {:induction false} FindPiece(v: string, i: nat, p: Piece, quote: Quote)
    requires WellFormedPiece(p, quote) && quote != Single && At(v, i, Print(p))
    requires p.Plain? && p.c in "$<>" ==> NoParenAt(v, i + 1)
    ensures Finds(v, i, i + |Print(p)|, quote, BodiesOf(p))
    decreases p, 1
  {
    hide Substitutions, ParenClose, BacktickClose, Finds, At, Bodies;
    match p {
      case Plain(_) => FindPlain(v, i, p.c, quote);
      case Escaped(_) => FindEscaped(v, i, p.c, quote);
      case Quoted(text) =>
        AtFramed(v, i, "'", text, "'");
        AtTail(v, i, "'", text, "'");
        QuotedCloses(v, i + 1, text, 1);
        FindQuote(v, i, |text|);
      case Tick(units) =>
        AtTail(v, i, "`", PrintAll(units), "`");
        AtFramed(v, i, "`", PrintAll(units), "`");
        UnitsClose(v, i + 1, units);
        FindTick(v, i, |PrintAll(units)|, quote);
      case _ => FindNested(v, i, p, quote);
    }
  }

  lemma {:induction false} FindNested(v: string, i: nat, p: Piece, quote: Quote)
    requires p.DoubleQuoted? || p.Sub? || p.Group?
    requires WellFormedPiece(p, quote) && quote != Single && At(v, i, Print(p))
    ensures Finds(v, i, i + |Print(p)|, quote, BodiesOf(p))
    decreases p, 0
  {
    hide Substitutions, ParenClose, BacktickClose, Finds, At, WellFormed, PrintAll;
    match p {
      case DoubleQuoted(inner) =>
        AtFramed(v, i, "\"", PrintAll(inner), "\"");
        FindPieces(v, i + 1, inner, Double);
        FindDoubleQuote(v, i, |PrintAll(inner)|, Bodies(inner));
      case Sub(opener, inner) =>
        SubCloses(v, i, opener, inner);
        FindSub(v, i, |PrintAll(inner)|, quote);
      case Group(inner) =>
        AtFramed(v, i, "(", PrintAll(inner), ")");
        FindPieces(v, i + 1, inner, Bare);
        FindGroup(v, i, |PrintAll(inner)|, Bodies(inner));
    }
  }

  /** Reading back a written script finds its substitutions, all of them, and calls it well formed. */
  lemma WrittenScriptIsRead(pieces: seq<Piece>)
    requires WellFormed(pieces, Bare)
    ensures Substitutions(PrintAll(pieces), 0, Bare) == (Bodies(pieces), false)
  {
    var v := PrintAll(pieces);
    assert v[0..0 + |v|] == v;
    FindPieces(v, 0, pieces, Bare);
    assert Bodies(pieces) + [] == Bodies(pieces);
  }

  /* ---------- one step of each scan over each kind of piece ---------- */

  lemma ScanPlain(v: string, i: nat, c: char, depth: nat, quote: Quote)
    requires WellFormedPiece(Plain(c), quote) && quote != Single && depth > 0 && At(v, i, [c])
    requires c in "$<>" ==> NoParenAt(v, i + 1)
    ensures ParenClose(v, i, depth, quote) == ParenClose(v, i + 1, depth, quote)
  {
    AtChar(v, i, [c], 0);
  }

  lemma ScanEscaped(v: string, i: nat, c: char, depth: nat, quote: Quote)
    requires quote != Single && depth > 0 && At(v, i, ['\\', c])
    ensures ParenClose(v, i, depth, quote) == ParenClose(v, i + 2, depth, quote)
  {
    AtChar(v, i, ['\\', c], 0);
  }

  lemma ScanQuote(v: string, i: nat, n: nat, depth: nat)
    requires depth > 0 && i < |v| && v[i] == '\''
    requires ParenClose(v, i + 1, depth, Single) == ParenClose(v, i + 1 + n + 1, depth, Bare)
    ensures ParenClose(v, i, depth, Bare) == ParenClose(v, i + n + 2, depth, Bare)
  {
  }

  lemma ScanDoubleQuote(v: string, i: nat, n: nat, depth: nat)
    requires depth > 0 && i + n + 1 < |v| && v[i] == '"' == v[i + 1 + n]
    requires ParenClose(v, i + 1, depth, Double) == ParenClose(v, i + 1 + n, depth, Double)
    ensures ParenClose(v, i, depth, Bare) == ParenClose(v, i + n + 2, depth, Bare)
  {
  }

  lemma ScanTick(v: string, i: nat, n: nat, depth: nat, quote: Quote)
    requires depth > 0 && i < |v| && v[i] == '`' && quote != Single
    requires BacktickClose(v, i + 1) == Some(i + 1 + n)
    ensures ParenClose(v, i, depth, quote) == ParenClose(v, i + n + 2, depth, quote)
  {
  }

  lemma ScanSub(v: string, i: nat, n: nat, depth: nat, quote: Quote)
    requires depth > 0 && OpensAt(v, i) && quote != Single && i + 2 + n < |v| && v[i + 2 + n] == ')'
    requires ParenClose(v, i + 2, 1, Bare) == ParenClose(v, i + 2 + n, 1, Bare)
    ensures ParenClose(v, i, depth, quote) == ParenClose(v, i + n + 3, depth, quote)
  {
  }

  lemma ScanGroup(v: string, i: nat, n: nat, depth: nat)
    requires depth > 0 && i + 1 + n < |v| && v[i] == '(' && v[i + 1 + n] == ')'
    requires ParenClose(v, i + 1, depth + 1, Bare) == ParenClose(v, i + 1 + n, depth + 1, Bare)
    ensures ParenClose(v, i, depth, Bare) == ParenClose(v, i + n + 2, depth, Bare)
  {
  }

  lemma FindPlain(v: string, i: nat, c: char, quote: Quote)
    requires WellFormedPiece(Plain(c), quote) && quote != Single && At(v, i, [c])
    requires c in "$<>" ==> NoParenAt(v, i + 1)
    ensures Finds(v, i, i + 1, quote, [])
  {
  }

  lemma FindEscaped(v: string, i: nat, c: char, quote: Quote)
    requires quote != Single && At(v, i, ['\\', c])
    ensures Finds(v, i, i + 2, quote, [])
  {
  }

  lemma FindQuote(v: string, i: nat, n: nat)
    requires i < |v| && v[i] == '\''
    requires Substitutions(v, i + 1, Single) == Substitutions(v, i + 1 + n + 1, Bare)
    ensures Finds(v, i, i + n + 2, Bare, [])
  {
  }

  lemma FindDoubleQuote(v: string, i: nat, n: nat, bodies: seq<string>)
    requires i + n + 1 < |v| && v[i] == '"' == v[i + 1 + n]
    requires Finds(v, i + 1, i + 1 + n, Double, bodies)
    ensures Finds(v, i, i + n + 2, Bare, bodies)
  {
  }

  lemma FindTick(v: string, i: nat, n: nat, quote: Quote)
    requires i < |v| && v[i] == '`' && quote != Single
    requires BacktickClose(v, i + 1) == Some(i + 1 + n)
    ensures Finds(v, i, i + n + 2, quote, [v[i + 1..i + 1 + n]])
  {
    hide ParenClose, BacktickClose;
    assert Substitutions(v, i, quote) == Prepend(v[i + 1..i + 1 + n], Substitutions(v, i + n + 2, quote));
  }

  lemma FindSub(v: string, i: nat, n: nat, quote: Quote)
    requires OpensAt(v, i) && quote != Single && i + 2 + n < |v|
    requires ParenClose(v, i + 2, 1, Bare) == Some(i + 2 + n)
    ensures Finds(v, i, i + n + 3, quote, [v[i + 2..i + 2 + n]])
  {
  }

  lemma FindGroup(v: string, i: nat, n: nat, bodies: seq<string>)
    requires i + 1 + n < |v| && v[i] == '(' && v[i + 1 + n] == ')'
    requires Finds(v, i + 1, i + 1 + n, Bare, bodies)
    ensures Finds(v, i, i + n + 2, Bare, bodies)
  {
  }

  lemma FindNothing(v: string, i: nat, quote: Quote)
    ensures Finds(v, i, i, quote, [])
  {
  }

  lemma FindBoth(v: string, i: nat, j: nat, k: nat, quote: Quote, first: seq<string>, second: seq<string>)
    requires Finds(v, i, j, quote, first) && Finds(v, j, k, quote, second)
    ensures Finds(v, i, k, quote, first + second)
  {
  }

  lemma QuotedStep(v: string, i: nat, depth: nat)
    requires i < |v| && depth > 0
    ensures ParenClose(v, i, depth, Single) == ParenClose(v, i + 1, depth, if v[i] == '\'' then Bare else Single)
    ensures Substitutions(v, i, Single) == Substitutions(v, i + 1, if v[i] == '\'' then Bare else Single)
  {
  }

  /** The first character of what is written, and the position after it. */
  lemma TailChar(v: string, i: nat, text: string, close: string)
    requires At(v, i, text + close) && close != ""
    ensures i < |v| && v[i] == (if text == "" then close[0] else text[0])
  {
  }

  lemma AtTail(v: string, i: nat, open: string, body: string, close: string)
    requires At(v, i, open + body + close)
    ensures At(v, i + |open|, body + close)
  {
  }

  lemma ClosesHere(v: string, i: nat)
    requires i < |v| && v[i] == ')'
    ensures ParenClose(v, i, 1, Bare) == Some(i)
  {
  }

  lemma PrintStarts(pieces: seq<Piece>, quote: Quote)
    requires WellFormed(pieces, quote) && !StartsWithParen(pieces) && PrintAll(pieces) != ""
    ensures PrintAll(pieces)[0] != '('
  {
  }
}
