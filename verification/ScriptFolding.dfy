/**
 What folding line continuations does to a script's structure and to the verdict on it: the first
 step of _script_mutates in tools/workflow_policy.py.
 */
module ScriptFolding {
  import opened Basics
  import opened ShellScanner

  /* ---------- folding text ---------- */

  lemma {:induction false} FoldedStartsNoLine(v: string)
    requires LineBreak(v) == 0
    ensures LineBreak(Normalized(v)) == 0
  {
    if |v| >= 2 && v[0] == '\r' {
      assert Normalized(v)[1..] == Normalized(v[1..]);
    }
  }

  /** Folding leaves nothing to fold. */
  lemma {:induction false} NormalizedTwice(v: string)
    ensures Normalized(Normalized(v)) == Normalized(v)
    decreases |v|
  {
    if v != "" {
      var line := LineBreak(v[1..]);
      if v[0] in "\\`" && line > 0 {
        NormalizedTwice(v[1 + line..]);
        assert Normalized(v)[1..] == Normalized(v[1 + line..]);
      } else {
        NormalizedTwice(v[1..]);
        if v[0] in "\\`" { FoldedStartsNoLine(v[1..]); }
        assert Normalized(v)[1..] == Normalized(v[1..]);
      }
    }
  }

  /** So the verdict on a script is the verdict on its folded text. */
  lemma VerdictOfFolded(v: string, segments: string -> bool)
    ensures ScriptMutates(Normalized(v), segments) <==> ScriptMutates(v, segments)
  {
    NormalizedTwice(v);
  }

  /** Text that is neither part of a line end nor indentation cuts folding in two. */
  predicate Cuts(v: string) { v == "" || v[0] !in "\r\n \t" }

  lemma {:induction false} BlanksCut(a: string, b: string)
    requires Cuts(b)
    ensures Blanks(a + b) == Blanks(a)
  {
    if a == "" {
      assert a + b == b;
    } else {
      assert (a + b)[1..] == a[1..] + b;
      BlanksCut(a[1..], b);
    }
  }

  lemma LineBreakCut(a: string, b: string)
    requires Cuts(b)
    ensures LineBreak(a + b) == LineBreak(a)
  {
    if a == "" {
      assert a + b == b;
    } else {
      assert (a + b)[1..] == a[1..] + b;
      BlanksCut(a[1..], b);
      if |a| >= 2 {
        assert (a + b)[2..] == a[2..] + b;
        BlanksCut(a[2..], b);
      }
    }
  }

  /** What becomes of the first character. */
  lemma FirstFolds(c: char, text: string)
    ensures Normalized([c] + text) ==
      if c in "\\`" && LineBreak(text) > 0 then " " + Normalized(text[LineBreak(text)..]) else [c] + Normalized(text)
  {
    var v := [c] + text;
    assert v[1..] == text && v[1 + LineBreak(text)..] == text[LineBreak(text)..];
    hide LineBreak;
  }

  lemma {:induction false} NormalizedCut(a: string, b: string)
    requires Cuts(b)
    ensures Normalized(a + b) == Normalized(a) + Normalized(b)
    decreases |a|
  {
    if a == "" {
      assert a + b == b;
    } else {
      var c, tail := a[0], a[1..];
      assert a == [c] + tail && a + b == [c] + (tail + b);
      FirstFolds(c, tail);
      FirstFolds(c, tail + b);
      LineBreakCut(tail, b);
      hide Normalized, LineBreak, Cuts;
      var line := LineBreak(tail);
      assert (tail + b)[line..] == tail[line..] + b;
      if c in "\\`" && line > 0 {
        NormalizedCut(tail[line..], b);
        Regroup(" ", Normalized(tail[line..]), Normalized(b));
      } else {
        NormalizedCut(tail, b);
        Regroup([c], Normalized(tail), Normalized(b));
      }
    }
  }

  lemma Regroup(a: string, b: string, c: string)
    ensures a + (b + c) == (a + b) + c
  {
  }

  /* ---------- folding structure ---------- */

  function BlankPieces(pieces: seq<Piece>): (n: nat)
    ensures n <= |pieces|
  {
    if pieces != [] && pieces[0].Plain? && IsBlank(pieces[0].c) then 1 + BlankPieces(pieces[1..]) else 0
  }

  /** The number of pieces in the line end and the indentation that a list starts with. */
  function LinePieces(pieces: seq<Piece>): (n: nat)
    ensures n <= |pieces|
  {
    if |pieces| >= 1 && pieces[0] == Plain('\n') then 1 + BlankPieces(pieces[1..])
    else if |pieces| >= 2 && pieces[0] == Plain('\r') && pieces[1] == Plain('\n') then 2 + BlankPieces(pieces[2..])
    else 0
  }

  /** The line end that an escaped first character belongs to. */
  function EscapedLine(pieces: seq<Piece>): (n: nat)
    requires pieces != []
    ensures n <= |pieces|
  {
    if pieces[0].Escaped? then LinePieces([Plain(pieces[0].c)] + pieces[1..]) else 0
  }

  /** An escaped line end becomes a space; a line end after an escaped backslash or backtick takes that character with it. */
  function FoldedPieces(pieces: seq<Piece>): seq<Piece>
    decreases pieces, 1
  {
    if pieces == [] then []
    else if EscapedLine(pieces) > 0 then [Plain(' ')] + FoldedPieces(pieces[EscapedLine(pieces)..])
    else if pieces[0].Escaped? && pieces[0].c in "\\`" && LinePieces(pieces[1..]) > 0 then
      [Escaped(' ')] + FoldedPieces(pieces[1 + LinePieces(pieces[1..])..])
    else [FoldedPiece(pieces[0])] + FoldedPieces(pieces[1..])
  }

  function FoldedPiece(p: Piece): Piece
    decreases p, 0
  {
    match p
    case Quoted(text) => Quoted(Normalized(text))
    case DoubleQuoted(pieces) => DoubleQuoted(FoldedPieces(pieces))
    case Tick(units) => Tick(FoldedPieces(units))
    case Sub(opener, pieces) => Sub(opener, FoldedPieces(pieces))
    case Group(pieces) => Group(FoldedPieces(pieces))
    case _ => p
  }

  /** No backtick that opens or closes a substitution stands directly before a line end, at any depth. */
  predicate TicksInLine(pieces: seq<Piece>)
    decreases pieces, 1
  {
    pieces == [] || (TickInLine(pieces[0], pieces[1..]) && TicksInLine(pieces[1..]))
  }

  predicate TickInLine(p: Piece, rest: seq<Piece>)
    decreases p, 0
  {
    match p
    case Tick(units) => LinePieces(units) == 0 && LinePieces(rest) == 0
    case DoubleQuoted(pieces) => TicksInLine(pieces)
    case Sub(_, pieces) => TicksInLine(pieces)
    case Group(pieces) => TicksInLine(pieces)
    case _ => true
  }

  /** What folding needs of the pieces; every well-formed script has it. */
  predicate Foldable(pieces: seq<Piece>)
    decreases pieces, 1
  {
    pieces == [] || (FoldablePiece(pieces[0]) && Foldable(pieces[1..]))
  }

  predicate FoldablePiece(p: Piece)
    decreases p, 0
  {
    match p
    case Plain(c) => c !in "\\`"
    case Tick(units) => AreUnits(units)
    case DoubleQuoted(pieces) => Foldable(pieces)
    case Sub(opener, pieces) => opener in "$<>" && Foldable(pieces)
    case Group(pieces) => Foldable(pieces)
    case _ => true
  }

  lemma {:induction false} WellFormedIsFoldable(pieces: seq<Piece>, quote: Quote)
    requires WellFormed(pieces, quote)
    ensures Foldable(pieces)
    decreases pieces, 1
  {
    if pieces != [] {
      WellFormedPieceIsFoldable(pieces[0], quote);
      WellFormedIsFoldable(pieces[1..], quote);
    }
  }

  lemma {:induction false} WellFormedPieceIsFoldable(p: Piece, quote: Quote)
    requires WellFormedPiece(p, quote)
    ensures FoldablePiece(p)
    decreases p, 0
  {
    match p
    case DoubleQuoted(pieces) => WellFormedIsFoldable(pieces, Double);
    case Sub(_, pieces) => WellFormedIsFoldable(pieces, Bare);
    case Group(pieces) => WellFormedIsFoldable(pieces, Bare);
    case _ =>
  }

  lemma {:induction false} UnitsAreFoldable(units: seq<Piece>)
    requires AreUnits(units)
    ensures Foldable(units) && TicksInLine(units)
  {
    if units != [] { UnitsAreFoldable(units[1..]); }
  }

  /* ---------- line ends as pieces and as text ---------- */

  /** Only plain characters can start a line end or indentation. */
  predicate Openers(pieces: seq<Piece>) { forall i :: 0 <= i < |pieces| && pieces[i].Sub? ==> pieces[i].opener in "$<>" }

  lemma {:induction false} FoldableOpeners(pieces: seq<Piece>)
    requires Foldable(pieces)
    ensures Openers(pieces)
  {
    if pieces != [] { FoldableOpeners(pieces[1..]); }
  }

  lemma FirstCharacter(pieces: seq<Piece>)
    requires Openers(pieces) && pieces != []
    ensures PrintAll(pieces) != "" && (!pieces[0].Plain? ==> Cuts(PrintAll(pieces)))
    ensures pieces[0].Plain? ==> PrintAll(pieces)[0] == pieces[0].c && PrintAll(pieces)[1..] == PrintAll(pieces[1..])
  {
  }

  lemma {:induction false} BlanksAsText(pieces: seq<Piece>)
    requires Openers(pieces)
    ensures Blanks(PrintAll(pieces)) == BlankPieces(pieces)
    ensures PrintAll(pieces)[Blanks(PrintAll(pieces))..] == PrintAll(pieces[BlankPieces(pieces)..])
  {
    hide PrintAll;
    if pieces == [] {
      assert PrintAll(pieces) == "" by { EmptyPrint(); }
    } else {
      FirstCharacter(pieces);
      if pieces[0].Plain? && IsBlank(pieces[0].c) {
        BlanksAsText(pieces[1..]);
        var n := BlankPieces(pieces[1..]);
        assert pieces[1 + n..] == pieces[1..][n..];
        assert PrintAll(pieces)[1 + n..] == PrintAll(pieces)[1..][n..];
      }
    }
  }

  lemma EmptyPrint()
    ensures PrintAll([]) == ""
  {
  }

  lemma LineAsText(pieces: seq<Piece>)
    requires Openers(pieces)
    ensures LineBreak(PrintAll(pieces)) == LinePieces(pieces)
    ensures PrintAll(pieces)[LinePieces(pieces)..] == PrintAll(pieces[LinePieces(pieces)..])
  {
    hide PrintAll, Blanks, BlankPieces;
    if pieces == [] {
      EmptyPrint();
    } else {
      var text := PrintAll(pieces);
      FirstCharacter(pieces);
      if pieces[0] == Plain('\n') {
        BlanksAsText(pieces[1..]);
        var n := BlankPieces(pieces[1..]);
        assert pieces[1 + n..] == pieces[1..][n..] && text[1 + n..] == text[1..][n..];
      } else if pieces[0] == Plain('\r') {
        LineAfterReturn(pieces, text);
      }
    }
  }

  lemma LineAfterReturn(pieces: seq<Piece>, text: string)
    requires Openers(pieces) && pieces != [] && pieces[0] == Plain('\r')
    requires text == PrintAll(pieces) && text != "" && text[0] == '\r' && text[1..] == PrintAll(pieces[1..])
    ensures LineBreak(text) == LinePieces(pieces)
    ensures text[LinePieces(pieces)..] == PrintAll(pieces[LinePieces(pieces)..])
  {
    hide PrintAll, Blanks, BlankPieces;
    if |pieces| == 1 {
      EmptyPrint();
    } else {
      FirstCharacter(pieces[1..]);
      assert text[1] == text[1..][0];
      if pieces[1] == Plain('\n') {
        assert pieces[2..] == pieces[1..][1..] && text[2..] == text[1..][1..];
        BlanksAsText(pieces[2..]);
        var n := BlankPieces(pieces[2..]);
        assert pieces[2 + n..] == pieces[2..][n..] && text[2 + n..] == text[2..][n..];
      }
    }
  }

  lemma {:induction false} BlanksArePlain(pieces: seq<Piece>)
    ensures forall i :: 0 <= i < BlankPieces(pieces) ==> pieces[i].Plain?
  {
    if BlankPieces(pieces) > 0 { BlanksArePlain(pieces[1..]); }
  }

  predicate Character(p: Piece) { p.Plain? || p.Escaped? }

  lemma LineIsCharacters(pieces: seq<Piece>)
    ensures forall i :: 0 <= i < LinePieces(pieces) ==> pieces[i].Plain?
    ensures pieces != [] ==> forall i :: 0 <= i < EscapedLine(pieces) ==> Character(pieces[i])
  {
    hide BlankPieces;
    if |pieces| >= 1 { BlanksArePlain(pieces[1..]); }
    if |pieces| >= 2 { BlanksArePlain(pieces[2..]); }
    if pieces != [] && pieces[0].Escaped? {
      var unescaped := [Plain(pieces[0].c)] + pieces[1..];
      assert unescaped[1..] == pieces[1..];
      if |pieces| >= 2 { assert unescaped[2..] == pieces[2..]; }
    }
  }

  /** Dropping leading characters changes neither what the rest is nor which bodies there are. */
  lemma {:induction false} SkipCharacters(pieces: seq<Piece>, k: nat, quote: Quote)
    requires k <= |pieces| && forall i :: 0 <= i < k ==> Character(pieces[i])
    ensures Foldable(pieces) ==> Foldable(pieces[k..])
    ensures WellFormed(pieces, quote) ==> WellFormed(pieces[k..], quote)
    ensures AreUnits(pieces) ==> AreUnits(pieces[k..])
    ensures TicksInLine(pieces) <==> TicksInLine(pieces[k..])
    ensures Bodies(pieces) == Bodies(pieces[k..])
    decreases k
  {
    if k == 0 {
      assert pieces[0..] == pieces;
    } else {
      assert pieces[1..][k - 1..] == pieces[k..];
      SkipCharacters(pieces[1..], k - 1, quote);
    }
  }

  lemma {:induction false} Copied(open: string, v: string)
    requires forall i :: 0 <= i < |open| ==> open[i] !in "\\`"
    ensures Normalized(open + v) == open + Normalized(v)
  {
    if open == "" {
      assert open + v == v;
    } else {
      assert (open + v)[1..] == open[1..] + v;
      Copied(open[1..], v);
    }
  }

  /** A quoted or bracketed text is folded inside, and its brackets are left alone. */
  lemma NormalizedFramed(open: string, body: string, close: string, rest: string)
    requires (forall i :: 0 <= i < |open| ==> open[i] !in "\\`") && |close| == 1 && close[0] !in "\\`\r\n \t"
    ensures Normalized(open + body + close + rest) == open + Normalized(body) + close + Normalized(rest)
  {
    hide Normalized;
    assert open + body + close + rest == open + (body + (close + rest));
    Copied(open, body + (close + rest));
    NormalizedCut(body, close + rest);
    Copied(close, rest);
  }

  lemma {:induction false} BlanksAreBlank(v: string)
    ensures forall i :: 0 <= i < Blanks(v) ==> v[i] in " \t"
  {
    if Blanks(v) > 0 { BlanksAreBlank(v[1..]); }
  }

  /** A line end and its indentation are copied. */
  lemma LineIsCopied(v: string)
    ensures Normalized(v) == v[..LineBreak(v)] + Normalized(v[LineBreak(v)..])
  {
    hide Normalized, Blanks;
    if |v| >= 1 { BlanksAreBlank(v[1..]); }
    if |v| >= 2 { BlanksAreBlank(v[2..]); }
    var n := LineBreak(v);
    assert v == v[..n] + v[n..];
    Copied(v[..n], v[n..]);
  }

  /* ---------- the folded text is the text of the folded pieces, exactly when no tick ends a line ---------- */

  /** The same text, or a shorter one. */
  predicate Fits(folded: string, written: string, same: bool) { if same then folded == written else |folded| < |written| }

  /**
   Folding the text of a script gives the text of its folded pieces when no backtick that opens or
   closes a substitution stands at a line end, and loses characters of it otherwise.
   */
  lemma {:induction false} FoldingFits(pieces: seq<Piece>)
    requires Foldable(pieces)
    ensures Fits(Normalized(PrintAll(pieces)), PrintAll(FoldedPieces(pieces)), TicksInLine(pieces))
    decreases pieces, 1
  {
    hide Normalized, PrintAll, LinePieces, Foldable, TicksInLine, Fits;
    if pieces == [] {
      NothingFits();
    } else if EscapedLine(pieces) > 0 {
      EscapedLineFolds(pieces);
      FoldingFits(pieces[EscapedLine(pieces)..]);
      FitsAfter(" ", Normalized(PrintAll(pieces[EscapedLine(pieces)..])), PrintAll(FoldedPieces(pieces[EscapedLine(pieces)..])), TicksInLine(pieces));
    } else if pieces[0].Escaped? && pieces[0].c in "\\`" && LinePieces(pieces[1..]) > 0 {
      var n := LinePieces(pieces[1..]);
      LineAfterEscapeFolds(pieces);
      FoldingFits(pieces[1 + n..]);
      FitsAfter("\\ ", Normalized(PrintAll(pieces[1 + n..])), PrintAll(FoldedPieces(pieces[1 + n..])), TicksInLine(pieces));
    } else {
      assert FoldablePiece(pieces[0]) && Foldable(pieces[1..]) && Openers(pieces) by { FoldableParts(pieces); }
      FoldingFits(pieces[1..]);
      PieceFits(pieces);
    }
  }

  lemma FoldableParts(pieces: seq<Piece>)
    requires Foldable(pieces) && pieces != []
    ensures FoldablePiece(pieces[0]) && Foldable(pieces[1..]) && Openers(pieces)
  {
    FoldableOpeners(pieces);
  }

  lemma NothingFits()
    ensures Fits(Normalized(PrintAll([])), PrintAll(FoldedPieces([])), TicksInLine([]))
  {
  }

  lemma FitsAfter(before: string, folded: string, written: string, same: bool)
    requires Fits(folded, written, same)
    ensures Fits(before + folded, before + written, same)
  {
  }

  lemma PrintedFirst(pieces: seq<Piece>)
    requires pieces != []
    ensures PrintAll(pieces) == Print(pieces[0]) + PrintAll(pieces[1..])
  {
  }

  lemma PrintedAfter(p: Piece, rest: seq<Piece>)
    ensures PrintAll([p] + rest) == Print(p) + PrintAll(rest)
  {
    assert ([p] + rest)[1..] == rest;
  }

  /** What an escaped character and the rest of its list are written as, and where line ends are in that. */
  lemma EscapedText(pieces: seq<Piece>)
    requires Openers(pieces) && pieces != [] && pieces[0].Escaped?
    ensures var c, text, n := pieces[0].c, PrintAll(pieces[1..]), EscapedLine(pieces);
      && PrintAll(pieces) == ['\\', c] + text
      && LineBreak([c] + text) == n && (n > 0 ==> ([c] + text)[n..] == PrintAll(pieces[n..]))
      && LineBreak(text) == LinePieces(pieces[1..])
      && text[LineBreak(text)..] == PrintAll(pieces[1 + LinePieces(pieces[1..])..])
  {
    var unescaped, n := [Plain(pieces[0].c)] + pieces[1..], EscapedLine(pieces);
    LineAsText(unescaped);
    LineAsText(pieces[1..]);
    PrintedFirst(pieces);
    PrintedAfter(Plain(pieces[0].c), pieces[1..]);
    hide PrintAll, LinePieces, LineBreak;
    assert n > 0 ==> unescaped[n..] == pieces[n..];
    assert pieces[1..][LinePieces(pieces[1..])..] == pieces[1 + LinePieces(pieces[1..])..];
  }

  /** An escaped line end, as text and as pieces. */
  lemma EscapedLineFolds(pieces: seq<Piece>)
    requires Foldable(pieces) && pieces != [] && EscapedLine(pieces) > 0
    ensures var n := EscapedLine(pieces);
      && Normalized(PrintAll(pieces)) == " " + Normalized(PrintAll(pieces[n..]))
      && PrintAll(FoldedPieces(pieces)) == " " + PrintAll(FoldedPieces(pieces[n..]))
      && Foldable(pieces[n..]) && (TicksInLine(pieces) <==> TicksInLine(pieces[n..]))
  {
    var n := EscapedLine(pieces);
    FoldableOpeners(pieces);
    LineIsCharacters(pieces);
    SkipCharacters(pieces, n, Bare);
    EscapedText(pieces);
    EscapeFolds(pieces[0].c, PrintAll(pieces[1..]));
    PrintedAfter(Plain(' '), FoldedPieces(pieces[n..]));
    assert FoldedPieces(pieces) == [Plain(' ')] + FoldedPieces(pieces[n..]);
    assert Print(Plain(' ')) == " ";
    hide PrintAll, Print, LinePieces, EscapedLine, Foldable, TicksInLine, LineBreak, Normalized, FoldedPieces;
  }

  /** A line end after an escaped backslash or backtick, as text and as pieces. */
  lemma LineAfterEscapeFolds(pieces: seq<Piece>)
    requires Foldable(pieces) && pieces != [] && EscapedLine(pieces) == 0
    requires pieces[0].Escaped? && pieces[0].c in "\\`" && LinePieces(pieces[1..]) > 0
    ensures var n := 1 + LinePieces(pieces[1..]);
      && Normalized(PrintAll(pieces)) == "\\ " + Normalized(PrintAll(pieces[n..]))
      && PrintAll(FoldedPieces(pieces)) == "\\ " + PrintAll(FoldedPieces(pieces[n..]))
      && Foldable(pieces[n..]) && (TicksInLine(pieces) <==> TicksInLine(pieces[n..]))
  {
    var n := 1 + LinePieces(pieces[1..]);
    FoldableOpeners(pieces);
    LineIsCharacters(pieces[1..]);
    SkipCharacters(pieces, n, Bare);
    EscapedText(pieces);
    EscapeFolds(pieces[0].c, PrintAll(pieces[1..]));
    PrintedAfter(Escaped(' '), FoldedPieces(pieces[n..]));
    assert FoldedPieces(pieces) == [Escaped(' ')] + FoldedPieces(pieces[n..]);
    assert Print(Escaped(' ')) == "\\ ";
    hide PrintAll, Print, LinePieces, EscapedLine, Foldable, TicksInLine, LineBreak, Normalized, FoldedPieces;
  }

  /** What becomes of a backslash and the character after it. */
  lemma EscapeFolds(c: char, text: string)
    ensures var tail := [c] + text;
      Normalized(['\\', c] + text) ==
        if LineBreak(tail) > 0 then " " + Normalized(tail[LineBreak(tail)..])
        else if c in "\\`" && LineBreak(text) > 0 then "\\ " + Normalized(text[LineBreak(text)..])
        else ['\\', c] + Normalized(text)
  {
    assert ['\\', c] + text == ['\\'] + ([c] + text);
    FirstFolds('\\', [c] + text);
    FirstFolds(c, text);
    hide Normalized, LineBreak;
  }

  /** One piece that no line end touches, or a tick, followed by the rest. */
  lemma {:induction false} PieceFits(pieces: seq<Piece>)
    requires pieces != [] && FoldablePiece(pieces[0]) && Openers(pieces)
    requires EscapedLine(pieces) == 0 && !(pieces[0].Escaped? && pieces[0].c in "\\`" && LinePieces(pieces[1..]) > 0)
    requires Fits(Normalized(PrintAll(pieces[1..])), PrintAll(FoldedPieces(pieces[1..])), TicksInLine(pieces[1..]))
    ensures Fits(Normalized(PrintAll(pieces)), PrintAll(FoldedPieces(pieces)), TicksInLine(pieces))
    decreases pieces, 0
  {
    var p, rest := pieces[0], pieces[1..];
    PrintedFirst(pieces);
    PrintedAfter(FoldedPiece(p), FoldedPieces(rest));
    assert FoldedPieces(pieces) == [FoldedPiece(p)] + FoldedPieces(rest);
    hide Normalized, PrintAll, LinePieces, EscapedLine, Foldable, Fits, FoldedPieces, Openers, AreUnits;
    var text, written, same := PrintAll(rest), PrintAll(FoldedPieces(rest)), TicksInLine(rest);
    match p {
      case Plain(c) =>
        Copied([c], text);
        FitsAfter([c], Normalized(text), written, same);
      case Escaped(c) =>
        EscapedStays(pieces);
        FitsAfter(['\\', c], Normalized(text), written, same);
      case Quoted(quoted) =>
        NormalizedFramed("'", quoted, "'", text);
        FitsAfter("'" + Normalized(quoted) + "'", Normalized(text), written, same);
      case _ => NestedFits(p, rest);
    }
  }

  lemma {:induction false} NestedFits(p: Piece, rest: seq<Piece>)
    requires p.DoubleQuoted? || p.Sub? || p.Group? || p.Tick?
    requires FoldablePiece(p) && Openers(rest)
    requires Fits(Normalized(PrintAll(rest)), PrintAll(FoldedPieces(rest)), TicksInLine(rest))
    ensures Fits(Normalized(Print(p) + PrintAll(rest)), Print(FoldedPiece(p)) + PrintAll(FoldedPieces(rest)), TickInLine(p, rest) && TicksInLine(rest))
    decreases p, 0
  {
    hide Normalized, PrintAll, LinePieces, EscapedLine, Foldable, Fits, FoldedPieces, Openers, AreUnits;
    match p {
      case DoubleQuoted(inner) =>
        FoldingFits(inner);
        FramedFits("\"", inner, "\"", rest);
      case Sub(opener, inner) =>
        FoldingFits(inner);
        FramedFits([opener, '('], inner, ")", rest);
      case Group(inner) =>
        FoldingFits(inner);
        FramedFits("(", inner, ")", rest);
      case Tick(units) =>
        UnitsAreFoldable(units);
        FoldableOpeners(units);
        FoldingFits(units);
        TickFits(units, rest);
    }
  }

  /** An escaped character that no line end follows. */
  lemma EscapedStays(pieces: seq<Piece>)
    requires pieces != [] && pieces[0].Escaped? && Openers(pieces)
    requires EscapedLine(pieces) == 0 && !(pieces[0].c in "\\`" && LinePieces(pieces[1..]) > 0)
    ensures Normalized(PrintAll(pieces)) == ['\\', pieces[0].c] + Normalized(PrintAll(pieces[1..]))
  {
    EscapedText(pieces);
    EscapeFolds(pieces[0].c, PrintAll(pieces[1..]));
    hide PrintAll, LinePieces, EscapedLine, LineBreak, Normalized;
  }

  lemma FramedFits(open: string, inner: seq<Piece>, close: string, rest: seq<Piece>)
    requires (forall i :: 0 <= i < |open| ==> open[i] !in "\\`") && |close| == 1 && close[0] !in "\\`\r\n \t"
    requires Fits(Normalized(PrintAll(inner)), PrintAll(FoldedPieces(inner)), TicksInLine(inner))
    requires Fits(Normalized(PrintAll(rest)), PrintAll(FoldedPieces(rest)), TicksInLine(rest))
    ensures Fits(Normalized(open + PrintAll(inner) + close + PrintAll(rest)), open + PrintAll(FoldedPieces(inner)) + close + PrintAll(FoldedPieces(rest)),
                 TicksInLine(inner) && TicksInLine(rest))
  {
    hide Normalized, PrintAll, TicksInLine;
    NormalizedFramed(open, PrintAll(inner), close, PrintAll(rest));
  }

  /** A backtick before a line end is folded away with it; one that is not stays. */
  lemma BacktickFits(pieces: seq<Piece>, same: bool)
    requires Openers(pieces) && Fits(Normalized(PrintAll(pieces)), PrintAll(FoldedPieces(pieces)), same)
    ensures Fits(Normalized("`" + PrintAll(pieces)), "`" + PrintAll(FoldedPieces(pieces)), LinePieces(pieces) == 0 && same)
  {
    var text := PrintAll(pieces);
    LineAsText(pieces);
    FirstFolds('`', text);
    assert ['`'] + text == "`" + text;
    LineIsCopied(text);
    hide PrintAll, LinePieces, Normalized, LineBreak;
  }

  lemma TickFits(units: seq<Piece>, rest: seq<Piece>)
    requires Openers(units) && Openers(rest)
    requires Fits(Normalized(PrintAll(units)), PrintAll(FoldedPieces(units)), true)
    requires Fits(Normalized(PrintAll(rest)), PrintAll(FoldedPieces(rest)), TicksInLine(rest))
    ensures Fits(Normalized("`" + PrintAll(units) + "`" + PrintAll(rest)), "`" + PrintAll(FoldedPieces(units)) + "`" + PrintAll(FoldedPieces(rest)),
                 LinePieces(units) == 0 && LinePieces(rest) == 0 && TicksInLine(rest))
  {
    hide PrintAll, LinePieces, TicksInLine, Normalized, FoldedPieces, Fits, Openers;
    var body, text := PrintAll(units), PrintAll(rest);
    var folded, after := PrintAll(FoldedPieces(units)), PrintAll(FoldedPieces(rest));
    BacktickFits(units, true);
    BacktickFits(rest, TicksInLine(rest));
    TickFolds(body, text);
    assert "`" + folded + "`" + after == ("`" + folded) + ("`" + after);
    FitsJoin(Normalized("`" + body), "`" + folded, LinePieces(units) == 0, Normalized("`" + text), "`" + after, LinePieces(rest) == 0 && TicksInLine(rest));
  }

  lemma FitsJoin(a: string, x: string, first: bool, b: string, y: string, second: bool)
    requires Fits(a, x, first) && Fits(b, y, second)
    ensures Fits(a + b, x + y, first && second)
  {
  }

  /** Each of the two backticks folds on its own. */
  lemma TickFolds(body: string, text: string)
    ensures Normalized("`" + body + "`" + text) == Normalized("`" + body) + Normalized("`" + text)
  {
    hide Normalized;
    assert "`" + body + "`" + text == ("`" + body) + ("`" + text);
    NormalizedCut("`" + body, "`" + text);
  }

  /** The fold of the text is the text of the fold exactly when no tick stands at a line end. */
  lemma FoldingKeepsStructure(pieces: seq<Piece>)
    requires WellFormed(pieces, Bare)
    ensures Normalized(PrintAll(pieces)) == PrintAll(FoldedPieces(pieces)) <==> TicksInLine(pieces)
    ensures !TicksInLine(pieces) ==> |Normalized(PrintAll(pieces))| < |PrintAll(FoldedPieces(pieces))|
  {
    WellFormedIsFoldable(pieces, Bare);
    FoldingFits(pieces);
  }

  /* ---------- the folded pieces are well formed, and their bodies are the folded bodies ---------- */

  lemma {:induction false} NormalizedKeeps(v: string, c: char)
    requires c !in v && c != ' '
    ensures c !in Normalized(v)
    decreases |v|
  {
    if v != "" {
      NormalizedKeeps(v[1..], c);
      NormalizedKeeps(v[1 + LineBreak(v[1..])..], c);
    }
  }

  lemma {:induction false} FoldedUnits(units: seq<Piece>)
    requires AreUnits(units)
    ensures AreUnits(FoldedPieces(units))
    decreases |units|
  {
    hide EscapedLine, LinePieces;
    if units != [] {
      if EscapedLine(units) > 0 { FoldedUnits(units[EscapedLine(units)..]); }
      FoldedUnits(units[1 + LinePieces(units[1..])..]);
      FoldedUnits(units[1..]);
    }
  }

  lemma FoldedStart(pieces: seq<Piece>)
    requires StartsWithParen(FoldedPieces(pieces))
    ensures StartsWithParen(pieces)
  {
    assert FoldedPiece(pieces[0]) == Plain('(') ==> pieces[0] == Plain('(') by {
      match pieces[0] { case Plain(_) => case _ => }
    }
  }

  lemma WellFormedAfter(p: Piece, rest: seq<Piece>, quote: Quote)
    requires WellFormedPiece(p, quote) && WellFormed(rest, quote) && (p.Plain? && p.c in "$<>" ==> !StartsWithParen(rest))
    ensures WellFormed([p] + rest, quote)
  {
    assert ([p] + rest)[1..] == rest;
  }

  /** The three ways the first piece folds. */
  lemma FirstPieceFolds(pieces: seq<Piece>)
    requires pieces != []
    ensures var n, m := EscapedLine(pieces), 1 + LinePieces(pieces[1..]);
      FoldedPieces(pieces) ==
        if n > 0 then [Plain(' ')] + FoldedPieces(pieces[n..])
        else if pieces[0].Escaped? && pieces[0].c in "\\`" && m > 1 then [Escaped(' ')] + FoldedPieces(pieces[m..])
        else [FoldedPiece(pieces[0])] + FoldedPieces(pieces[1..])
  {
    hide FoldedPiece, EscapedLine, LinePieces;
  }

  lemma WellFormedParts(pieces: seq<Piece>, quote: Quote)
    requires WellFormed(pieces, quote) && pieces != []
    ensures WellFormedPiece(pieces[0], quote) && WellFormed(pieces[1..], quote)
    ensures pieces[0].Plain? && pieces[0].c in "$<>" ==> !StartsWithParen(pieces[1..])
  {
  }

  lemma FoldedPlain(p: Piece)
    ensures FoldedPiece(p).Plain? ==> FoldedPiece(p) == p
  {
  }

  lemma SpacesAreWellFormed(quote: Quote)
    ensures WellFormedPiece(Plain(' '), quote) && WellFormedPiece(Escaped(' '), quote)
  {
  }

  lemma {:induction false} FoldedWellFormed(pieces: seq<Piece>, quote: Quote)
    requires WellFormed(pieces, quote)
    ensures WellFormed(FoldedPieces(pieces), quote)
    decreases pieces, 1
  {
    hide EscapedLine, LinePieces, FoldedPieces, FoldedPiece, WellFormed, WellFormedPiece, StartsWithParen;
    if pieces == [] {
      assert WellFormed(FoldedPieces([]), quote) by { NothingFolds(quote); }
    } else {
      FirstPieceFolds(pieces);
      WellFormedParts(pieces, quote);
      SpacesAreWellFormed(quote);
      LineIsCharacters(pieces);
      LineIsCharacters(pieces[1..]);
      var n, m := EscapedLine(pieces), 1 + LinePieces(pieces[1..]);
      if n > 0 {
        SkipCharacters(pieces, n, quote);
        FoldedWellFormed(pieces[n..], quote);
        WellFormedAfter(Plain(' '), FoldedPieces(pieces[n..]), quote);
      } else if pieces[0].Escaped? && pieces[0].c in "\\`" && m > 1 {
        SkipCharacters(pieces, m, quote);
        FoldedWellFormed(pieces[m..], quote);
        WellFormedAfter(Escaped(' '), FoldedPieces(pieces[m..]), quote);
      } else {
        FoldedPieceWellFormed(pieces[0], quote);
        FoldedWellFormed(pieces[1..], quote);
        FoldedPlain(pieces[0]);
        if StartsWithParen(FoldedPieces(pieces[1..])) { FoldedStart(pieces[1..]); }
        WellFormedAfter(FoldedPiece(pieces[0]), FoldedPieces(pieces[1..]), quote);
      }
    }
  }

  lemma NothingFolds(quote: Quote)
    ensures WellFormed(FoldedPieces([]), quote) && Bodies(FoldedPieces([])) == AllNormalized(Bodies([]))
  {
  }

  lemma {:induction false} FoldedPieceWellFormed(p: Piece, quote: Quote)
    requires WellFormedPiece(p, quote)
    ensures WellFormedPiece(FoldedPiece(p), quote)
    decreases p, 0
  {
    match p
    case Quoted(text) => NormalizedKeeps(text, '\'');
    case DoubleQuoted(pieces) => FoldedWellFormed(pieces, Double);
    case Tick(units) => FoldedUnits(units);
    case Sub(_, pieces) => FoldedWellFormed(pieces, Bare);
    case Group(pieces) => FoldedWellFormed(pieces, Bare);
    case _ =>
  }

  function AllNormalized(bodies: seq<string>): seq<string> {
    seq(|bodies|, i requires 0 <= i < |bodies| => Normalized(bodies[i]))
  }

  lemma BodiesAfter(p: Piece, rest: seq<Piece>)
    ensures Bodies([p] + rest) == BodiesOf(p) + Bodies(rest)
  {
    assert ([p] + rest)[1..] == rest;
  }

  /** The substitutions of the folded structure are those of the structure, folded. */
  lemma {:induction false} FoldedBodies(pieces: seq<Piece>)
    requires Foldable(pieces) && TicksInLine(pieces)
    ensures Bodies(FoldedPieces(pieces)) == AllNormalized(Bodies(pieces))
    decreases pieces, 1
  {
    hide EscapedLine, LinePieces, FoldedPieces, FoldedPiece, Normalized, Foldable, TicksInLine, Bodies, BodiesOf;
    if pieces == [] {
      NothingFolds(Bare);
    } else {
      FirstPieceFolds(pieces);
      FoldableParts(pieces);
      TicksParts(pieces);
      LineIsCharacters(pieces);
      LineIsCharacters(pieces[1..]);
      var n, m := EscapedLine(pieces), 1 + LinePieces(pieces[1..]);
      if n > 0 {
        SkipCharacters(pieces, n, Bare);
        FoldedBodies(pieces[n..]);
        BodiesAfter(Plain(' '), FoldedPieces(pieces[n..]));
        CharacterBodies(Plain(' '), Bodies(FoldedPieces(pieces[n..])));
      } else if pieces[0].Escaped? && pieces[0].c in "\\`" && m > 1 {
        SkipCharacters(pieces, m, Bare);
        FoldedBodies(pieces[m..]);
        BodiesAfter(Escaped(' '), FoldedPieces(pieces[m..]));
        CharacterBodies(Escaped(' '), Bodies(FoldedPieces(pieces[m..])));
      } else {
        FoldedPieceBodies(pieces[0], pieces[1..]);
        FoldedBodies(pieces[1..]);
        BodiesAfter(FoldedPiece(pieces[0]), FoldedPieces(pieces[1..]));
        BodiesAfter(pieces[0], pieces[1..]);
        assert [pieces[0]] + pieces[1..] == pieces;
        assert AllNormalized(BodiesOf(pieces[0]) + Bodies(pieces[1..])) == AllNormalized(BodiesOf(pieces[0])) + AllNormalized(Bodies(pieces[1..]));
      }
    }
  }

  lemma TicksParts(pieces: seq<Piece>)
    requires TicksInLine(pieces) && pieces != []
    ensures TickInLine(pieces[0], pieces[1..]) && TicksInLine(pieces[1..])
  {
  }

  lemma CharacterBodies(p: Piece, bodies: seq<string>)
    requires Character(p)
    ensures BodiesOf(p) + bodies == bodies
  {
  }

  lemma {:induction false} FoldedPieceBodies(p: Piece, rest: seq<Piece>)
    requires FoldablePiece(p) && TickInLine(p, rest)
    ensures BodiesOf(FoldedPiece(p)) == AllNormalized(BodiesOf(p))
    decreases p, 0
  {
    hide Normalized, FoldedPieces;
    match p
    case DoubleQuoted(pieces) => FoldedBodies(pieces);
    case Group(pieces) => FoldedBodies(pieces);
    case Tick(units) =>
      UnitsAreFoldable(units);
      FoldingFits(units);
    case Sub(_, pieces) => FoldingFits(pieces);
    case _ =>
  }

  /* ---------- the verdict on a written script ---------- */

  /** The verdict on a written script is what its structure says: a substitution of it mutates, or its own commands do. */
  ghost predicate SaysWhatIsWritten(pieces: seq<Piece>, segments: string -> bool) {
    ScriptMutates(PrintAll(pieces), segments) <==>
      (exists body :: body in Bodies(pieces) && ScriptMutates(body, segments)) || segments(PrintAll(FoldedPieces(pieces)))
  }

  /**
   When no tick stands at a line end, a script written from its structure, with any line
   continuations, mutates exactly when one of its substitutions does or its own commands do:
   no quoting, nesting or continuation hides a substitution or makes one up.
   */
  lemma WrittenVerdict(pieces: seq<Piece>, segments: string -> bool)
    requires WellFormed(pieces, Bare) && TicksInLine(pieces)
    ensures SaysWhatIsWritten(pieces, segments)
  {
    WellFormedIsFoldable(pieces, Bare);
    FoldingKeepsStructure(pieces);
    FoldedWellFormed(pieces, Bare);
    FoldedBodies(pieces);
    WrittenScriptIsRead(FoldedPieces(pieces));
    var bodies, folded := Bodies(pieces), Bodies(FoldedPieces(pieces));
    assert Substitutions(Normalized(PrintAll(pieces)), 0, Bare) == (folded, false);
    VerdictUnfolds(PrintAll(pieces), folded, segments);
    SameVerdicts(bodies, folded, segments);
    hide *;
  }

  /** So no quoting, nesting or continuation hides a mutating substitution. */
  lemma WrittenSubstitutionMutates(pieces: seq<Piece>, i: nat, segments: string -> bool)
    requires WellFormed(pieces, Bare) && TicksInLine(pieces)
    requires i < |Bodies(pieces)| && ScriptMutates(Bodies(pieces)[i], segments)
    ensures ScriptMutates(PrintAll(pieces), segments)
  {
    WrittenVerdict(pieces, segments);
  }

  lemma SameVerdicts(bodies: seq<string>, folded: seq<string>, segments: string -> bool)
    requires folded == AllNormalized(bodies)
    ensures (exists i :: 0 <= i < |folded| && ScriptMutates(folded[i], segments)) <==> exists body :: body in bodies && ScriptMutates(body, segments)
  {
    forall i | 0 <= i < |bodies| ensures ScriptMutates(folded[i], segments) <==> ScriptMutates(bodies[i], segments) {
      VerdictOfFolded(bodies[i], segments);
    }
    if body :| body in bodies && ScriptMutates(body, segments) {
      var i :| 0 <= i < |bodies| && bodies[i] == body;
      assert ScriptMutates(folded[i], segments);
    }
  }

  lemma VerdictUnfolds(v: string, found: seq<string>, segments: string -> bool)
    requires Substitutions(Normalized(v), 0, Bare) == (found, false)
    ensures ScriptMutates(v, segments) <==> (exists i :: 0 <= i < |found| && ScriptMutates(found[i], segments)) || segments(Normalized(v))
  {
  }

  /* ---------- when a substitution is missed ---------- */

  /** Some text nested in the script is not closed; the verdict is then that it mutates. */
  ghost predicate Broken(v: string) {
    exists inner :: Nested(inner, v) && Substitutions(Normalized(inner), 0, Bare).1
  }

  /** The commands looked at for the script include those of this text. */
  ghost predicate LooksAt(v: string, text: string) {
    exists inner :: Nested(inner, v) && Normalized(inner) == text
  }

  /** The body has commands the script's verdict never looks at. */
  ghost predicate Overlooks(script: string, body: string) {
    exists inner :: Nested(inner, body) && !LooksAt(script, Normalized(inner))
  }

  /**
   There are commands whose presence in a body makes the body mutate and the script not, exactly
   when nothing nested in the script is left open and either something nested in the body is, or
   the body has commands the script's verdict never looks at.
   */
  lemma MissedExactlyWhen(body: string, script: string)
    ensures (exists segments: string -> bool :: ScriptMutates(body, segments) && !ScriptMutates(script, segments))
        <==> !Broken(script) && (Broken(body) || Overlooks(script, body))
  {
    hide ScriptMutates, Broken, Overlooks;
    if segments: string -> bool :| ScriptMutates(body, segments) && !ScriptMutates(script, segments) {
      MissedMeansUnseen(body, script, segments);
    }
    if !Broken(script) && (Broken(body) || Overlooks(script, body)) {
      var segments := UnseenMeansMissed(body, script);
    }
  }

  lemma UnseenMeansMissed(body: string, script: string) returns (segments: string -> bool)
    requires !Broken(script) && (Broken(body) || Overlooks(script, body))
    ensures ScriptMutates(body, segments) && !ScriptMutates(script, segments)
  {
    hide ScriptMutates, Broken;
    if Broken(body) {
      segments := _ => false;
    } else {
      var inner :| Nested(inner, body) && !LooksAt(script, Normalized(inner));
      segments := text => text == Normalized(inner);
      assert LooksAt(body, Normalized(inner));
    }
    hide Broken, LooksAt;
    OpenOrSeen(body, segments);
    OpenOrSeen(script, segments);
  }

  /** The verdict: something is left open, or some text looked at has a mutating command. */
  lemma OpenOrSeen(v: string, segments: string -> bool)
    ensures ScriptMutates(v, segments) <==> Broken(v) || exists text :: LooksAt(v, text) && segments(text)
  {
    if ScriptMutates(v, segments) {
      MutationHasACause(v, segments);
      var inner :| Nested(inner, v) && (Substitutions(Normalized(inner), 0, Bare).1 || segments(Normalized(inner)));
      assert LooksAt(v, Normalized(inner));
    }
    if inner :| Nested(inner, v) && Substitutions(Normalized(inner), 0, Bare).1 {
      NestedMutationIsNoticed(inner, v, segments);
    }
    if text :| LooksAt(v, text) && segments(text) {
      var inner :| Nested(inner, v) && Normalized(inner) == text;
      NestedMutationIsNoticed(inner, v, segments);
    }
  }

  lemma MissedMeansUnseen(body: string, script: string, segments: string -> bool)
    requires ScriptMutates(body, segments) && !ScriptMutates(script, segments)
    ensures !Broken(script) && (Broken(body) || Overlooks(script, body))
  {
    OpenOrSeen(body, segments);
    OpenOrSeen(script, segments);
    hide ScriptMutates, Broken;
    if !Broken(body) {
      var text :| LooksAt(body, text) && segments(text);
      var inner :| Nested(inner, body) && Normalized(inner) == text;
      assert !LooksAt(script, Normalized(inner));
    }
  }

  /* ---------- the verdict is what the structure says exactly when ticks stay in line ---------- */

  /**
   For every verdict on commands the script is judged as its structure says exactly when no tick
   stands at a line end, apart from scripts that are always said to mutate, and rightly: something
   is left open both in them and in one of their substitutions.
   */
  lemma JudgedAsWritten(pieces: seq<Piece>)
    requires WellFormed(pieces, Bare)
    ensures (forall segments :: SaysWhatIsWritten(pieces, segments)) <==>
      TicksInLine(pieces) || (Broken(PrintAll(pieces)) && exists body :: body in Bodies(pieces) && Broken(body))
  {
    hide ScriptMutates, Broken, WellFormed, TicksInLine, PrintAll, FoldedPieces, Bodies;
    if TicksInLine(pieces) {
      forall segments ensures SaysWhatIsWritten(pieces, segments) { WrittenVerdict(pieces, segments); }
    } else if Broken(PrintAll(pieces)) && exists body :: body in Bodies(pieces) && Broken(body) {
      var body :| body in Bodies(pieces) && Broken(body);
      forall segments ensures SaysWhatIsWritten(pieces, segments) {
        OpenOrSeen(PrintAll(pieces), segments);
        OpenOrSeen(body, segments);
      }
    } else {
      var segments := Misjudged(pieces);
    }
  }

  lemma Misjudged(pieces: seq<Piece>) returns (segments: string -> bool)
    requires WellFormed(pieces, Bare) && !TicksInLine(pieces)
    requires !(Broken(PrintAll(pieces)) && exists body :: body in Bodies(pieces) && Broken(body))
    ensures !SaysWhatIsWritten(pieces, segments)
  {
    FoldingKeepsStructure(pieces);
    hide ScriptMutates, Broken, WellFormed, TicksInLine, PrintAll, FoldedPieces, Bodies, Normalized;
    var script, written := PrintAll(pieces), PrintAll(FoldedPieces(pieces));
    if Broken(script) {
      segments := _ => false;
      forall body ensures ScriptMutates(body, segments) <==> Broken(body) { OpenOrSeen(body, segments); }
    } else {
      segments := text => text == written;
      OpenOrSeen(script, segments);
      if LooksAt(script, written) { LooksAtShorter(script, written); }
    }
  }

  lemma LooksAtShorter(v: string, text: string)
    requires LooksAt(v, text)
    ensures |text| <= |Normalized(v)|
  {
    var inner :| Nested(inner, v) && Normalized(inner) == text;
    NestedIsShorter(inner, v);
  }

  lemma {:induction false} NestedIsShorter(inner: string, outer: string)
    requires Nested(inner, outer)
    ensures inner == outer || |inner| < |Normalized(outer)|
    decreases |outer|
  {
    if inner != outer {
      var bodies := Substitutions(Normalized(outer), 0, Bare).0;
      var i :| 0 <= i < |bodies| && Nested(inner, bodies[i]);
      assert bodies[i] in bodies;
      NestedIsShorter(inner, bodies[i]);
    }
  }

  /* ---------- a family of scripts that hide a command ---------- */

  /** Nothing in the text quotes, escapes, groups or substitutes. */
  predicate Ordinary(s: string) { forall i :: 0 <= i < |s| ==> s[i] !in "\\`'\"()" }

  /** The characters of a text as pieces, in front of others. */
  function Spelled(s: string, rest: seq<Piece>): seq<Piece> {
    if s == "" then rest else [Plain(s[0])] + Spelled(s[1..], rest)
  }

  lemma {:induction false} SpelledPrint(s: string, rest: seq<Piece>)
    requires Ordinary(s) && WellFormed(rest, Bare) && !StartsWithParen(rest)
    ensures PrintAll(Spelled(s, rest)) == s + PrintAll(rest) && WellFormed(Spelled(s, rest), Bare)
    ensures Bodies(Spelled(s, rest)) == Bodies(rest) && !StartsWithParen(Spelled(s, rest))
    decreases |s|
  {
    if s == "" {
      assert s + PrintAll(rest) == PrintAll(rest);
    } else {
      var p, tail := Plain(s[0]), Spelled(s[1..], rest);
      assert Print(p) == [s[0]] && BodiesOf(p) == [] && WellFormedPiece(p, Bare);
      assert s == [s[0]] + s[1..];
      Regroup([s[0]], s[1..], PrintAll(rest));
      PrintedAfter(p, tail);
      BodiesAfter(p, tail);
      hide PrintAll, WellFormed, WellFormedPiece, Bodies, Print, BodiesOf;
      SpelledPrint(s[1..], rest);
      WellFormedAfter(p, tail, Bare);
    }
  }

  lemma {:induction false} SpelledUnits(s: string)
    requires Ordinary(s)
    ensures AreUnits(Spelled(s, []))
  {
    if s != "" { SpelledUnits(s[1..]); }
  }

  /** An ordinary text is its own fold and holds no substitution. */
  lemma OrdinaryIsPlain(s: string)
    requires Ordinary(s)
    ensures Normalized(s) == s && Substitutions(s, 0, Bare) == ([], false)
  {
    Copied(s, "");
    assert s + "" == s;
    SpelledAlone(s);
    WrittenScriptIsRead(Spelled(s, []));
  }

  /** Two substitutions on lines of their own; the first may be part of an assignment or a command. */
  function TwoLines(before: string, first: string, second: string): string {
    before + ("`" + (first + ("`\n" + ("`" + (second + "`\n")))))
  }

  lemma TwoLinesFold(before: string, first: string, second: string)
    requires Ordinary(before) && Ordinary(first) && Ordinary(second) && LineBreak(first) == 0 && LineBreak(second) == 0
    ensures Normalized(TwoLines(before, first, second)) == before + ("`" + (first + (" " + ("`" + (second + " ")))))
  {
    var last := "`\n";
    var middle := "`" + (second + last);
    hide Normalized, LineBreak, Ordinary;
    OrdinaryThen(before, "`" + (first + ("`\n" + middle)));
    TickStays(first, "`\n" + middle);
    TickGoes(middle);
    TickStays(second, last);
    TickGoes("");
    assert last + "" == last && " " + Normalized("") == " " by { EmptyFold(); }
  }

  lemma EmptyFold()
    ensures Normalized("") == ""
  {
  }

  lemma OrdinaryThen(before: string, after: string)
    requires Ordinary(before)
    ensures Normalized(before + after) == before + Normalized(after)
  {
    Copied(before, after);
  }

  /** A tick before ordinary text that starts no line stays. */
  lemma TickStays(text: string, after: string)
    requires Ordinary(text) && LineBreak(text) == 0 && Cuts(after)
    ensures Normalized("`" + (text + after)) == "`" + (text + Normalized(after))
  {
    assert ['`'] + (text + after) == "`" + (text + after);
    FirstFolds('`', text + after);
    LineBreakCut(text, after);
    Copied(text, after);
    hide Normalized, LineBreak;
  }

  /** A tick before a line end that no indentation follows goes with it. */
  lemma TickGoes(after: string)
    requires Cuts(after)
    ensures Normalized("`\n" + after) == " " + Normalized(after)
  {
    assert "`\n" + after == ['`'] + ("\n" + after) && ("\n" + after)[1..] == after;
    FirstFolds('`', "\n" + after);
    hide Normalized;
  }

  /** What the verdict looks at in such a script: its folded text, and one substitution that is the first text and a space. */
  lemma TwoLinesRead(before: string, first: string, second: string)
    requires Ordinary(before) && Ordinary(first) && Ordinary(second) && LineBreak(first) == 0 && LineBreak(second) == 0
    ensures Substitutions(Normalized(TwoLines(before, first, second)), 0, Bare) == ([first + " "], false)
  {
    TwoLinesFold(before, first, second);
    var rest, tick := Spelled(second + " ", []), Tick(Spelled(first + " ", []));
    SpelledAlone(second + " ");
    SpelledTick(first + " ");
    TickText(first, second);
    hide Substitutions, Bodies, PrintAll, Print, BodiesOf, Spelled, WellFormed, WellFormedPiece, TwoLines, Normalized, Ordinary, LineBreak;
    PrintedAfter(tick, rest);
    BodiesAfter(tick, rest);
    WellFormedAfter(tick, rest, Bare);
    SpelledPrint(before, [tick] + rest);
    WrittenScriptIsRead(Spelled(before, [tick] + rest));
    assert [first + " "] + [] == [first + " "];
    assert PrintAll(Spelled(before, [tick] + rest)) == Normalized(TwoLines(before, first, second));
    assert Bodies(Spelled(before, [tick] + rest)) == [first + " "];
  }

  lemma SpelledAlone(s: string)
    requires Ordinary(s)
    ensures PrintAll(Spelled(s, [])) == s && WellFormed(Spelled(s, []), Bare) && Bodies(Spelled(s, [])) == []
  {
    EmptyPrint();
    SpelledPrint(s, []);
  }

  lemma SpelledTick(s: string)
    requires Ordinary(s)
    ensures var tick := Tick(Spelled(s, []));
      Print(tick) == "`" + s + "`" && BodiesOf(tick) == [s] && WellFormedPiece(tick, Bare)
  {
    SpelledAlone(s);
    SpelledUnits(s);
  }

  lemma TickText(first: string, second: string)
    ensures "`" + (first + " ") + "`" + (second + " ") == "`" + (first + (" " + ("`" + (second + " "))))
  {
  }

  /**
   The verdict misses a command in the second substitution, unless the folded script or the first
   substitution looks like a mutation as well.
   */
  lemma TickAtLineEndHidesCommand(before: string, first: string, second: string, segments: string -> bool)
    requires Ordinary(before) && Ordinary(first) && Ordinary(second) && LineBreak(first) == 0 && LineBreak(second) == 0
    ensures ScriptMutates(TwoLines(before, first, second), segments) <==> segments(Normalized(TwoLines(before, first, second))) || segments(first + " ")
    ensures ScriptMutates(second, segments) <==> segments(second)
  {
    TwoLinesRead(before, first, second);
    OrdinaryIsPlain(first + " ");
    OrdinaryIsPlain(second);
    var script := TwoLines(before, first, second);
    VerdictUnfolds(script, [first + " "], segments);
    VerdictUnfolds(first + " ", [], segments);
    VerdictUnfolds(second, [], segments);
  }

  /** One of them: the output of two commands, the second of them a deployment, kept in a variable. */
  lemma DeploymentIsHidden(segments: string -> bool)
    requires segments("docker compose up") && !segments("a ") && !segments("x=`a `docker compose up ")
    ensures ScriptMutates("docker compose up", segments) && !ScriptMutates("x=`a`\n`docker compose up`\n", segments)
  {
    DeploymentText();
    TickAtLineEndHidesCommand("x=", "a", "docker compose up", segments);
    TwoLinesFold("x=", "a", "docker compose up");
  }

  lemma DeploymentText()
    ensures TwoLines("x=", "a", "docker compose up") == "x=`a`\n`docker compose up`\n"
    ensures "x=" + ("`" + ("a" + (" " + ("`" + ("docker compose up" + " "))))) == "x=`a `docker compose up "
    ensures "a" + " " == "a " && Ordinary("x=") && Ordinary("a") && Ordinary("docker compose up")
  {
    DeploymentIsOrdinary();
    hide Ordinary;
  }

  lemma DeploymentIsOrdinary()
    ensures Ordinary("x=") && Ordinary("a") && Ordinary("docker compose up")
  {
  }
}
