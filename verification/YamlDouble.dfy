/** The double-quoted scan on values: the pieces it builds, and where a deep margin
    tears a continuation. */
module YamlDouble {
  import opened YamlReader
  import opened YamlPieces

  /** Pieces that print `text[..start]`, ending so that the rest can follow. */
  ghost predicate Printed(text: Text, start: nat, pieces: seq<DoublePiece>) {
    && start <= |text|
    && DoubleLinked(pieces)
    && DoubleMeaning(pieces) == text[..start]
    && (pieces != [] ==> Awaits(pieces[|pieces| - 1], text, start))
  }

  /** What may come after the last piece. */
  predicate Awaits(last: DoublePiece, text: Text, start: nat) {
    match last
    case Raw(_) => false
    case Escaped(_) => true
    case Continued => start < |text| && text[start] != SPACE
    case _ => start < |text| && text[start] == SPACE
  }

  ghost predicate AllVerbatim(run: Text) {
    forall c :: c in run ==> Verbatim(c)
  }

  /** The held-back run, written out. */
  function Flushed(pieces: seq<DoublePiece>, run: Text): seq<DoublePiece> {
    if run == [] then pieces else pieces + [Raw(run)]
  }

  predicate EndsAtSpace(pieces: seq<DoublePiece>) {
    pieces != [] && pieces[|pieces| - 1] == ContinuedAtSpace
  }

  /** A continuation, written out: right after one that marked a space it tears it. */
  function WithContinuation(pieces: seq<DoublePiece>, atSpace: bool): seq<DoublePiece> {
    if EndsAtSpace(pieces) then pieces[..|pieces| - 1] + [Torn]
    else pieces + [if atSpace then ContinuedAtSpace else Continued]
  }

  function Continuation(atSpace: bool): DoublePiece {
    if atSpace then ContinuedAtSpace else Continued
  }

  lemma NothingPrinted(text: Text, indent: nat)
    ensures Printed(text, 0, []) && DoublePrint([], indent) == []
  {
  }

  lemma Link(pieces: seq<DoublePiece>, p: DoublePiece)
    requires DoubleLinked(pieces) && p.Ok() && (pieces != [] ==> Follows(pieces[|pieces| - 1], p))
    ensures DoubleLinked(pieces + [p])
  {
    hide DoublePiece.Ok, Follows;
    var all := pieces + [p];
    forall q | q in all ensures q.Ok() {
      assert q in pieces || q == p;
    }
    forall i | 0 <= i < |all| - 1 ensures Follows(all[i], all[i + 1]) {
      assert all[i] == pieces[i];
    }
  }

  lemma MeansMore(text: Text, start: nat, end: nat, pieces: seq<DoublePiece>, p: DoublePiece)
    requires start <= end <= |text| && DoubleMeaning(pieces) == text[..start] && p.Meaning() == text[start..end]
    ensures DoubleMeaning(pieces + [p]) == text[..end]
  {
    DoubleAppend(pieces, p, 0);
    hide DoubleMeaning, DoublePiece.Meaning;
    assert text[..start] + text[start..end] == text[..end];
  }

  /** Flushing keeps the pieces linked. */
  lemma FlushRun(text: Text, start: nat, end: nat, pieces: seq<DoublePiece>)
    requires Printed(text, start, pieces) && start <= end <= |text| && AllVerbatim(text[start..end])
    ensures DoubleLinked(Flushed(pieces, text[start..end]))
    ensures DoubleMeaning(Flushed(pieces, text[start..end])) == text[..end]
    ensures start == end ==> Flushed(pieces, text[start..end]) == pieces
    ensures start < end ==> Flushed(pieces, text[start..end]) == pieces + [Raw(text[start..end])]
  {
    var run := text[start..end];
    if start < end {
      assert run[0] == text[start];
      MeansMore(text, start, end, pieces, Raw(run));
      Link(pieces, Raw(run));
    } else {
      assert run == [] && text[..start] == text[..end];
    }
  }

  lemma EscapeStep(text: Text, start: nat, end: nat, pieces: seq<DoublePiece>)
    requires Printed(text, start, pieces) && start <= end < |text| && AllVerbatim(text[start..end])
    requires !Verbatim(text[end])
    ensures Printed(text, end + 1, Flushed(pieces, text[start..end]) + [Escaped(text[end])])
  {
    FlushRun(text, start, end, pieces);
    var all := Flushed(pieces, text[start..end]);
    assert Escaped(text[end]).Meaning() == text[end..end + 1];
    MeansMore(text, end, end + 1, all, Escaped(text[end]));
    Link(all, Escaped(text[end]));
  }

  /** A continuation before `text[end]`. */
  lemma ContinueStep(text: Text, start: nat, end: nat, pieces: seq<DoublePiece>)
    requires Printed(text, start, pieces) && start <= end < |text| && AllVerbatim(text[start..end])
    requires start == end && pieces != [] && pieces[|pieces| - 1] != ContinuedAtSpace ==> !pieces[|pieces| - 1].Torn?
    ensures var all := Flushed(pieces, text[start..end]);
            Printed(text, end, WithContinuation(all, text[end] == SPACE))
  {
    FlushRun(text, start, end, pieces);
    var all := Flushed(pieces, text[start..end]);
    var more := Continuation(text[end] == SPACE);
    if EndsAtSpace(all) {
      var init := all[..|all| - 1];
      assert all == init + [ContinuedAtSpace];
      LinkedPrefix(all);
      Link(init, Torn);
      DoubleAppend(init, ContinuedAtSpace, 0);
      DoubleAppend(init, Torn, 0);
    } else {
      assert text[end..end] == [];
      MeansMore(text, end, end, all, more);
      Link(all, more);
    }
  }

  lemma LinkedPrefix(pieces: seq<DoublePiece>)
    requires DoubleLinked(pieces) && pieces != []
    ensures DoubleLinked(pieces[..|pieces| - 1])
    ensures |pieces| > 1 ==> Follows(pieces[|pieces| - 2], pieces[|pieces| - 1])
  {
    var init := pieces[..|pieces| - 1];
    forall i | 0 <= i < |init| - 1 ensures Follows(init[i], init[i + 1]) {
      assert Follows(pieces[i], pieces[i + 1]);
    }
    if |pieces| > 1 {
      var k := |pieces| - 2;
      assert Follows(pieces[k], pieces[k + 1]);
    }
  }

  lemma Finish(text: Text, start: nat, pieces: seq<DoublePiece>)
    requires Printed(text, start, pieces) && AllVerbatim(text[start..])
    ensures DoubleOk(Flushed(pieces, text[start..])) && DoubleMeaning(Flushed(pieces, text[start..])) == text
  {
    assert text[start..] == text[start..|text|] && text[..|text|] == text;
    FlushRun(text, start, |text|, pieces);
  }

  lemma FlushedPrint(pieces: seq<DoublePiece>, run: Text, indent: nat)
    ensures DoublePrint(Flushed(pieces, run), indent) == DoublePrint(pieces, indent) + run
  {
    if run != [] {
      DoubleAppend(pieces, Raw(run), indent);
    }
  }

  lemma ContinuationPrint(pieces: seq<DoublePiece>, atSpace: bool, indent: nat)
    requires EndsAtSpace(pieces) ==> atSpace
    ensures DoublePrint(WithContinuation(pieces, atSpace), indent)
            == DoublePrint(pieces, indent) + Continuation(atSpace).Print(indent)
  {
    if EndsAtSpace(pieces) {
      var init := pieces[..|pieces| - 1];
      assert pieces == init + [ContinuedAtSpace];
      DoubleAppend(init, ContinuedAtSpace, indent);
      DoubleAppend(init, Torn, indent);
      TornIsTwo(indent);
    } else {
      DoubleAppend(pieces, Continuation(atSpace), indent);
    }
  }

  lemma TornIsTwo(indent: nat)
    ensures Torn.Print(indent) == ContinuedAtSpace.Print(indent) + ContinuedAtSpace.Print(indent)
  {
  }

  // Where it tears.

  function CharWidth(c: Code): (w: nat)
    ensures w >= 1 && (!Verbatim(c) ==> w >= 2)
  {
    if Verbatim(c) then 1 else |Escape(c)|
  }

  /** The printed width of a text on one line. */
  function Width(text: Text): nat {
    if text == [] then 0 else Width(text[..|text| - 1]) + CharWidth(text[|text| - 1])
  }

  lemma WidthMore(text: Text, k: nat)
    requires k < |text|
    ensures Width(text[..k + 1]) == Width(text[..k]) + CharWidth(text[k])
  {
    assert text[..k + 1][..k] == text[..k];
  }

  lemma {:induction false} WidthVerbatim(text: Text, i: nat, j: nat)
    requires i <= j <= |text| && AllVerbatim(text[i..j])
    ensures Width(text[..j]) == Width(text[..i]) + (j - i)
    decreases j - i
  {
    hide Width, Escape;
    if i < j {
      var run := text[i..j];
      assert run[j - 1 - i] == text[j - 1] && run[j - 1 - i] in run;
      assert text[i..j - 1] == run[..j - 1 - i];
      WidthVerbatim(text, i, j - 1);
      WidthMore(text, j - 1);
    }
  }

  const WIDTH: int := 80

  /** A continuation after the escaped character `e` would mark the space after it,
      with more text to come. `column` is where the quoted text begins. */
  predicate TearAt(text: Text, column: int, e: nat) {
    && 0 < e && e + 2 < |text| && !Verbatim(text[e]) && text[e + 1] == SPACE
    && column + Width(text[..e + 1]) - 1 > WIDTH
  }

  ghost predicate TearBefore(text: Text, column: int, end: nat) {
    exists e: nat :: e + 1 < end && TearAt(text, column, e)
  }

  /** The column before `text[end]` is looked at, with `text[..start]` printed and
      the rest held back; `column0` is where the quoted text began. */
  ghost predicate ColumnOk(text: Text, column0: int, margin: nat, start: nat, end: nat, column: int, folded: bool)
    requires start <= end <= |text|
  {
    && (!folded ==> column == column0 + Width(text[..start]))
    && (folded ==> column >= margin && column0 + Width(text[..end]) > WIDTH)
  }

  /** A space was marked and nothing has come after it yet. */
  predicate Marked(start: nat, end: nat, pieces: seq<DoublePiece>) {
    EndsAtSpace(pieces) && start == end
  }

  ghost predicate MarkOk(text: Text, column0: int, margin: nat, split: bool, end: nat, column: int)
    requires end <= |text|
  {
    && column == margin + 1 && split && end > 1 && !Verbatim(text[end - 1])
    && column0 + Width(text[..end]) - 1 > WIDTH
  }

  ghost predicate TearOk(text: Text, column0: int, deep: bool, start: nat, end: nat, pieces: seq<DoublePiece>) {
    && (Torn in pieces <==> deep && TearBefore(text, column0, end))
    && (end > 0 && deep && TearAt(text, column0, end - 1) ==> Marked(start, end, pieces))
    && (pieces != [] && pieces[|pieces| - 1].Torn? ==> start < end)
  }

  ghost predicate Tracking(text: Text, column0: int, margin: nat, split: bool,
                           start: nat, end: nat, column: int, folded: bool, pieces: seq<DoublePiece>)
  {
    && start <= end <= |text| && AllVerbatim(text[start..end])
    && ColumnOk(text, column0, margin, start, end, column, folded)
    && (Marked(start, end, pieces) ==> MarkOk(text, column0, margin, split, end, column))
    && TearOk(text, column0, split && margin >= WIDTH, start, end, pieces)
  }

  /** Whether the scan continues on a new line at `end`. */
  predicate Continues(text: Text, split: bool, start: nat, end: nat, column: int)
    requires end < |text|
  {
    0 < end < |text| - 1 && (text[end] == SPACE || start >= end) && column + (end - start) > WIDTH && split
  }

  lemma StartTracking(text: Text, column: int, margin: nat, split: bool)
    ensures Tracking(text, column, margin, split, 0, 0, column, false, [])
  {
  }

  lemma TearBeforeNext(text: Text, column: int, end: nat)
    ensures TearBefore(text, column, end + 1)
            <==> TearBefore(text, column, end) || (end > 0 && TearAt(text, column, end - 1))
  {
    if end > 0 && TearAt(text, column, end - 1) {
      assert (end - 1) + 1 < end + 1;
    }
  }

  lemma JoinRun(text: Text, start: nat, end: nat)
    requires start <= end < |text| && AllVerbatim(text[start..end]) && Verbatim(text[end])
    ensures AllVerbatim(text[start..end + 1])
  {
    assert text[start..end + 1] == text[start..end] + [text[end]];
  }

  lemma NoTearHere(text: Text, column0: int, end: nat)
    requires 0 < end < |text| && text[end] != SPACE
    ensures !TearAt(text, column0, end - 1)
  {
  }

  /** The next character joins the held-back run. */
  lemma TrackPlain(text: Text, column0: int, margin: nat, split: bool,
                   start: nat, end: nat, column: int, folded: bool, pieces: seq<DoublePiece>)
    requires Tracking(text, column0, margin, split, start, end, column, folded, pieces) && end < |text|
    requires Verbatim(text[end]) && !Continues(text, split, start, end, column)
    ensures Tracking(text, column0, margin, split, start, end + 1, column, folded, pieces)
  {
    WidthMore(text, end);
    JoinRun(text, start, end);
    TearBeforeNext(text, column0, end);
    hide AllVerbatim, Width, CharWidth, TearBefore;
  }

  /** The column after the run and the escape of `text[end]`. */
  lemma ColumnAfterEscape(text: Text, column0: int, margin: nat, start: nat, end: nat, column: int, folded: bool)
    requires start <= end < |text| && AllVerbatim(text[start..end]) && !Verbatim(text[end])
    requires ColumnOk(text, column0, margin, start, end, column, folded)
    ensures ColumnOk(text, column0, margin, end + 1, end + 1, column + (end - start) + |Escape(text[end])|, folded)
    ensures folded ==> column0 + Width(text[..end + 1]) - 1 > WIDTH
  {
    WidthVerbatim(text, start, end);
    WidthMore(text, end);
    hide Width, AllVerbatim;
  }

  lemma TornAfter(pieces: seq<DoublePiece>, run: Text, c: Code)
    ensures var all := Flushed(pieces, run) + [Escaped(c)];
            (Torn in all <==> Torn in pieces) && !EndsAtSpace(all) && all[|all| - 1] == Escaped(c)
  {
  }

  /** The held-back run and the escaped `text[end]` are printed. */
  lemma TrackEscape(text: Text, column0: int, margin: nat, split: bool,
                    start: nat, end: nat, column: int, folded: bool, pieces: seq<DoublePiece>)
    requires Tracking(text, column0, margin, split, start, end, column, folded, pieces) && end < |text|
    requires !Verbatim(text[end])
    requires !Continues(text, split, end + 1, end, column + (end - start) + |Escape(text[end])|)
    ensures Tracking(text, column0, margin, split, end + 1, end + 1,
                     column + (end - start) + |Escape(text[end])|, folded,
                     Flushed(pieces, text[start..end]) + [Escaped(text[end])])
  {
    ColumnAfterEscape(text, column0, margin, start, end, column, folded);
    TornAfter(pieces, text[start..end], text[end]);
    TearBeforeNext(text, column0, end);
    if end > 0 {
      NoTearHere(text, column0, end);
    }
    hide Width, TearBefore, Flushed, Escape;
  }

  /** ...and then the line is continued. */
  lemma TrackEscapeContinue(text: Text, column0: int, margin: nat, split: bool,
                            start: nat, end: nat, column: int, folded: bool, pieces: seq<DoublePiece>)
    requires Tracking(text, column0, margin, split, start, end, column, folded, pieces) && end < |text|
    requires !Verbatim(text[end])
    requires Continues(text, split, end + 1, end, column + (end - start) + |Escape(text[end])|)
    ensures var all := Flushed(pieces, text[start..end]) + [Escaped(text[end])];
            var space := text[end + 1] == SPACE;
            Tracking(text, column0, margin, split, end + 1, end + 1,
                     if space then margin + 1 else margin, true, WithContinuation(all, space))
  {
    ColumnAfterEscape(text, column0, margin, start, end, column, folded);
    TornAfter(pieces, text[start..end], text[end]);
    TearBeforeNext(text, column0, end);
    if end > 0 {
      NoTearHere(text, column0, end);
    }
    hide Width, TearBefore, Flushed, Escape;
  }

  lemma ColumnAfterContinuing(text: Text, column0: int, margin: nat, split: bool,
                              start: nat, end: nat, column: int, folded: bool, space: bool)
    requires start <= end < |text| && AllVerbatim(text[start..end]) && Continues(text, split, start, end, column)
    requires ColumnOk(text, column0, margin, start, end, column, folded)
    ensures ColumnOk(text, column0, margin, end, end + 1, if space then margin + 1 else margin, true)
  {
    WidthVerbatim(text, start, end);
    WidthMore(text, end);
    hide Width, AllVerbatim, CharWidth;
  }

  /** A marked space with nothing after it is where continuing again tears. */
  lemma TearAfterContinuing(text: Text, column0: int, margin: nat, split: bool,
                            start: nat, end: nat, column: int, pieces: seq<DoublePiece>, all: seq<DoublePiece>)
    requires start <= end < |text| && Verbatim(text[end]) && Continues(text, split, start, end, column)
    requires Marked(start, end, pieces) ==> text[end] == SPACE && MarkOk(text, column0, margin, split, end, column)
    requires TearOk(text, column0, split && margin >= WIDTH, start, end, pieces)
    requires all != [] && (Torn in all <==> Torn in pieces || Marked(start, end, pieces))
    ensures TearOk(text, column0, split && margin >= WIDTH, end, end + 1, all)
  {
    TearBeforeNext(text, column0, end);
    hide Width, TearBefore, EndsAtSpace;
  }

  /** The line is continued before `text[end]`, after the held-back run. */
  lemma TrackContinue(text: Text, column0: int, margin: nat, split: bool,
                      start: nat, end: nat, column: int, folded: bool, pieces: seq<DoublePiece>)
    requires Printed(text, start, pieces)
    requires Tracking(text, column0, margin, split, start, end, column, folded, pieces) && end < |text|
    requires Verbatim(text[end]) && Continues(text, split, start, end, column)
    ensures var all := Flushed(pieces, text[start..end]);
            var space := text[end] == SPACE;
            Tracking(text, column0, margin, split, end, end + 1,
                     if space then margin + 1 else margin, true, WithContinuation(all, space))
  {
    var space := text[end] == SPACE;
    var all := WithContinuation(Flushed(pieces, text[start..end]), space);
    ColumnAfterContinuing(text, column0, margin, split, start, end, column, folded, space);
    assert text[end..end] == [];
    JoinRun(text, end, end);
    TornByContinuing(pieces, text[start..end], space);
    assert Marked(start, end, pieces) ==> space;
    assert text[start..end] == [] <==> start == end;
    hide DoubleLinked, DoubleMeaning, AllVerbatim, ColumnOk, MarkOk, Printed;
    TearAfterContinuing(text, column0, margin, split, start, end, column, pieces, all);
    hide TearOk;
  }

  lemma TornByContinuing(pieces: seq<DoublePiece>, run: Text, space: bool)
    ensures var all := WithContinuation(Flushed(pieces, run), space);
            Torn in all <==> Torn in pieces || (run == [] && EndsAtSpace(pieces))
  {
    var flushed := Flushed(pieces, run);
    if EndsAtSpace(flushed) {
      assert flushed == flushed[..|flushed| - 1] + [ContinuedAtSpace];
    }
  }
}
