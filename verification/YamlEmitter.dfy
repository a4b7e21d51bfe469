/** The scalar printer of the YAML emitter: which style a string gets, and the quoted
    styles with their column-driven folding. */
module YamlEmitter {
  import opened Prelude
  import opened HexText
  import opened YamlReader
  import opened YamlPieces
  import opened YamlDouble
  import opened YamlAnalysis
  import opened YamlPlain
  import opened YamlResolve
  import opened YamlPatterns

  const BEST_INDENT: int := 2

  // The single-quoted scan.

  /** What the scan holds back between flushes: a run of one kind. */
  ghost predicate Pending(text: Text, start: nat, end: nat, spaces: bool, breaks: bool) {
    && start <= end <= |text|
    && !(spaces && breaks)
    && (spaces || breaks ==> start < end)
    && forall c :: c in text[start..end] ==>
         if spaces then c == SPACE else if breaks then c == LF else Ordinary(c) && c != SQUOTE
  }

  /** Whether the character after a run ends it. */
  predicate Ends(ch: Option<Code>, spaces: bool, breaks: bool) {
    ch.None? ||
    if spaces then ch.value != SPACE
    else if breaks then !IsBreak(ch.value)
    else ch.value == SPACE || IsBreak(ch.value) || ch.value == SQUOTE
  }

  class Emitter {
    var out: Text
    var column: int
    var indent: Option<nat>
    var indents: seq<Option<nat>>
    var whitespace: bool
    var indention: bool

    constructor ()
      ensures out == [] && column == 0 && indent == None && indents == [] && whitespace && indention
    {
      out, column, indent, indents, whitespace, indention := [], 0, None, [], true, true;
    }

    function Margin(): nat
      reads this`indent
    {
      if indent.Some? then indent.value else 0
    }

    method Put(data: Text)
      modifies this`out, this`column
      ensures out == old(out) + data && column == old(column) + |data|
    {
      out, column := out + data, column + |data|;
    }

    method WriteLineBreak()
      modifies this`out, this`column, this`whitespace, this`indention
      ensures out == old(out) + [LF] && column == 0 && whitespace && indention
    {
      whitespace, indention, column := true, true, 0;
      out := out + [LF];
    }

    predicate NeedsBreak()
      reads this
    {
      !indention || column > Margin() || (column == Margin() && !whitespace)
    }

    /** To the margin: on a new line unless already on a fresh one. */
    method WriteIndent()
      requires column >= 0
      modifies this`out, this`column, this`whitespace, this`indention
      ensures old(NeedsBreak()) ==>
                out == old(out) + NewLine(Margin()) && column == Margin() && whitespace && indention
      ensures !old(NeedsBreak()) ==>
                && out == old(out) + Repeat(SPACE, Margin() - old(column))
                && column == Margin() && indention && whitespace == (old(whitespace) || old(column) < Margin())
    {
      if NeedsBreak() {
        WriteLineBreak();
      }
      if column < Margin() {
        whitespace := true;
        var pad := Margin() - column;
        out, column := out + Repeat(SPACE, pad), Margin();
      }
    }

    method WriteIndicator(indicator: Text, needWhitespace: bool, white: bool, indentionAfter: bool)
      modifies this`out, this`column, this`whitespace, this`indention
      ensures var data := if old(whitespace) || !needWhitespace then indicator else [SPACE] + indicator;
              && out == old(out) + data && column == old(column) + |data|
              && whitespace == white && indention == (old(indention) && indentionAfter)
    {
      var data := if whitespace || !needWhitespace then indicator else [SPACE] + indicator;
      whitespace := white;
      indention := indention && indentionAfter;
      Put(data);
    }

    // Single-quoted.

    /** A fold here would start a new line. */
    predicate Breakable()
      reads this
    {
      !indention || column > Margin()
    }

    method WriteBreaks(k: nat)
      requires k > 0
      modifies this`out, this`column, this`whitespace, this`indention
      ensures out == old(out) + Breaks(k).Print(Margin())
      ensures column == Margin() && indention
    {
      WriteLineBreak();
      for j := 0 to k
        invariant out == old(out) + [LF] + Repeat(LF, j)
        invariant column == 0 && whitespace && indention
      {
        WriteLineBreak();
        OneMore(LF, j);
        assert [LF] + Repeat(LF, j) + [LF] == [LF] + Repeat(LF, j + 1);
      }
      WriteIndent();
    }

    /** Write out the held-back run if the next character ends it. */
    method FlushSingle(text: Text, start: nat, end: nat, ch: Option<Code>, spaces: bool, breaks: bool, split: bool)
      returns (next: nat, ghost piece: Option<SinglePiece>)
      requires Pending(text, start, end, spaces, breaks) && column >= 0
      requires ch == if end < |text| then Some(text[end]) else None
      requires indention ==> column >= Margin()
      requires spaces && start != 0 ==> Breakable()
      modifies this`out, this`column, this`whitespace, this`indention
      ensures piece.None? ==> next == start && out == old(out)
      ensures piece.Some? <==> start < end && Ends(ch, spaces, breaks)
      ensures piece.Some? ==>
                && next == end && piece.value.Ok() && piece.value.Meaning() == text[start..end]
                && out == old(out) + piece.value.Print(Margin())
                && (piece.value.IsSolid() <==> !spaces && !breaks)
                && (piece.value.Fold? ==> split && 0 < start && end < |text| && old(column) > WIDTH)
                && (piece.value == Spaces(1) && split && 0 < start && end < |text| ==> old(column) <= WIDTH)
                && column == SingleColumn([piece.value], old(column), Margin())
                && (piece.value.IsSolid() ==> Breakable())
      ensures piece.None? ==> column == old(column)
      ensures column >= 0 && (indention ==> column >= Margin())
      ensures piece.None? ==> (Breakable() <==> old(Breakable()))
      ensures !split && !breaks ==> column >= old(column)
    {
      hide Repeat, Ordinary;
      ColumnOfOne(column, Margin());
      hide SingleColumn;
      next, piece := start, None;
      if spaces {
        if ch != Some(SPACE) {
          RepeatIs(SPACE, text[start..end]);
          if start + 1 == end && column > WIDTH && split && start != 0 && end != |text| {
            WriteIndent();
            piece := Some(Fold);
          } else {
            Put(text[start..end]);
            piece := Some(Spaces(end - start));
          }
          next := end;
        }
      } else if breaks {
        if ch.None? || !IsBreak(ch.value) {
          RepeatIs(LF, text[start..end]);
          WriteBreaks(end - start);
          piece := Some(Breaks(end - start));
          next := end;
        }
      } else if (ch.None? || ch.value == SPACE || IsBreak(ch.value) || ch.value == SQUOTE) && start < end {
        Put(text[start..end]);
        piece := Some(Run(text[start..end]));
        next := end;
      }
    }

    /** A quote is written twice. */
    method PutQuote(text: Text, split: bool, end: nat, ghost head: Text, ghost column0: int,
                       ghost pieces: seq<SinglePiece>)
      returns (ghost more: seq<SinglePiece>)
      requires end < |text| && text[end] == SQUOTE && Scanned(text, end, pieces)
      requires out == head + SinglePrint(pieces, Margin()) && column == SingleColumn(pieces, column0, Margin())
      requires SingleFolds(pieces, column0, Margin(), split, false) && (indention ==> column >= Margin())
      modifies this`out, this`column
      ensures Scanned(text, end + 1, more) && more == pieces + [Quote] && column == old(column) + 2
      ensures out == head + SinglePrint(more, Margin()) && column == SingleColumn(more, column0, Margin())
      ensures SingleFolds(more, column0, Margin(), split, false)
    {
      hide SinglePiece.Print, SinglePiece.Meaning, SinglePiece.Ok, SingleOk, SinglePrint, SingleMeaning, Scanned;
      hide SingleColumn, SingleFolds;
      Put([SQUOTE, SQUOTE]);
      ScanQuote(text, end, pieces);
      SingleAppend(pieces, Quote, Margin());
      SingleFoldsOn(pieces, Quote, column0, Margin(), split, false);
      QuoteColumn(SingleColumn(pieces, column0, Margin()), Margin());
      QuotePrint(Margin());
      more := pieces + [Quote];
    }

    /** What the scan does at `text[end]`, or at the end. */
    method SingleStep(text: Text, split: bool, start: nat, end: nat, spaces: bool, breaks: bool,
                      ghost head: Text, ghost column0: int, ghost pieces: seq<SinglePiece>)
      returns (next: nat, nextSpaces: bool, nextBreaks: bool, ghost more: seq<SinglePiece>)
      requires SingleText(text) && Pending(text, start, end, spaces, breaks) && Scanned(text, start, pieces)
      requires out == head + SinglePrint(pieces, Margin()) && column >= 0 && (indention ==> column >= Margin())
      requires Settled(pieces) ==> Breakable()
      requires column == SingleColumn(pieces, column0, Margin())
      requires SingleFolds(pieces, column0, Margin(), split, false)
      modifies this`out, this`column, this`whitespace, this`indention
      ensures column == SingleColumn(more, column0, Margin())
      ensures SingleFolds(more, column0, Margin(), split, end == |text|)
      ensures if end < |text| then Pending(text, next, end + 1, nextSpaces, nextBreaks) else next == |text|
      ensures nextBreaks ==> breaks || LF in text
      ensures Scanned(text, next, more)
      ensures out == head + SinglePrint(more, Margin()) && column >= 0 && (indention ==> column >= Margin())
      ensures Settled(more) ==> Breakable()
      ensures !split ==> (Fold !in pieces ==> Fold !in more) && (!breaks ==> column >= old(column))
    {
      hide SinglePiece.Print, SinglePiece.Meaning, SinglePiece.Ok, SinglePiece.IsSolid, SingleOk, SinglePrint;
      hide SingleMeaning, Scanned, SingleText, Pending, Ends, Ordinary, SingleColumn, SingleFolds;
      var ch := if end < |text| then Some(text[end]) else None;
      PendingBounds(text, start, end, spaces, breaks);
      if spaces {
        SettledBeforeSpaces(text, start, end, breaks, pieces);
      }
      more, nextSpaces, nextBreaks := pieces, spaces, breaks;
      ghost var piece;
      next, piece := FlushSingle(text, start, end, ch, spaces, breaks, split);
      if piece.Some? {
        ScanPiece(text, start, end, spaces, breaks, piece.value, pieces);
        SingleAppend(pieces, piece.value, Margin());
        FirstPiece(text, start, pieces);
        SingleFoldsOn(pieces, piece.value, column0, Margin(), split, end == |text|);
        more := pieces + [piece.value];
      } else {
        FoldsToTheEnd(pieces, column0, Margin(), split);
      }
      if ch == Some(SQUOTE) {
        QuoteEnds(text, start, end, next, spaces, breaks);
        more := PutQuote(text, split, end, head, column0, more);
        next := end + 1;
      }
      if ch.Some? {
        NextPending(text, start, end, next, spaces, breaks);
        BreakIsLf(text, end);
        nextSpaces, nextBreaks := ch.value == SPACE, IsBreak(ch.value);
      } else {
        EndOfText(spaces, breaks);
      }
    }

    /** The single-quoted style. Its pieces mean the text, and are set so as to read
        back as they mean, whatever the column, the margin and the folds. */
    method WriteSingleQuoted(text: Text, split: bool) returns (ghost pieces: seq<SinglePiece>)
      requires SingleText(text) && column >= 0
      modifies this`out, this`column, this`whitespace, this`indention
      ensures SingleOk(pieces) && SingleMeaning(pieces) == text
      ensures SingleFolds(pieces, old(column) + |Opening(SQUOTE, old(whitespace))|, Margin(), split, true)
      ensures !split ==> Fold !in pieces
      ensures out == old(out) + Opening(SQUOTE, old(whitespace)) + SinglePrint(pieces, Margin()) + [SQUOTE]
      ensures column >= 0 && !whitespace && !indention
      ensures !split && LF !in text ==> column >= old(column)
    {
      hide SingleOk, SinglePrint, SingleMeaning, Scanned, SingleText, Pending;
      WriteIndicator([SQUOTE], true, false, false);
      ghost var head, column0 := out, column;
      pieces := [];
      NoFolds(column0, Margin(), split);
      hide SingleColumn, SingleFolds;
      var start: nat := 0;
      var spaces, breaks := false, false;
      NothingScanned(text, Margin());
      NothingPending(text);
      for end := 0 to |text| + 1
        invariant if end <= |text| then Pending(text, start, end, spaces, breaks) else start == |text|
        invariant Scanned(text, start, pieces)
        invariant out == head + SinglePrint(pieces, Margin())
        invariant column >= 0 && (indention ==> column >= Margin())
        invariant Settled(pieces) ==> Breakable()
        invariant !split ==> Fold !in pieces
        invariant !split && LF !in text ==> column >= old(column) && !breaks
        invariant column == SingleColumn(pieces, column0, Margin())
        invariant SingleFolds(pieces, column0, Margin(), split, end > |text|)
      {
        start, spaces, breaks, pieces := SingleStep(text, split, start, end, spaces, breaks, head, column0, pieces);
      }
      WriteIndicator([SQUOTE], false, false, false);
      AllScanned(text, pieces);
    }

    // Plain.

    /** What the scan does at `text[end]`, or at the end. */
    method PlainStep(text: Text, split: bool, start: nat, end: nat, spaces: bool,
                     ghost head: Text, ghost column0: int, ghost pieces: seq<PlainPiece>)
      returns (next: nat, nextSpaces: bool, ghost more: seq<PlainPiece>)
      requires PlainText(text) && HeldBack(text, start, end, spaces) && PlainScanned(text, start, pieces)
      requires out == head + PlainPrint(pieces, Margin()) && column >= 0 && !indention && !whitespace
      requires column == PlainColumn(pieces, column0, Margin()) && PlainFolds(pieces, column0, Margin(), split)
      modifies this`out, this`column, this`whitespace, this`indention
      ensures if end < |text| then HeldBack(text, next, end + 1, nextSpaces) else next == |text|
      ensures PlainScanned(text, next, more)
      ensures out == head + PlainPrint(more, Margin()) && column >= 0 && !indention && !whitespace
      ensures column == PlainColumn(more, column0, Margin()) && PlainFolds(more, column0, Margin(), split)
      ensures !split ==> column >= old(column) && (FoldedGap !in pieces ==> FoldedGap !in more)
    {
      hide PlainText, PlainScanned, HeldBack, PlainPrint, PlainMeaning, PlainOk, NewLine;
      hide PlainPiece.Print, PlainPiece.Meaning, PlainPiece.Ok, PlainColumn, PlainFolds;
      var ch := if end < |text| then Some(text[end]) else None;
      HeldBounds(text, start, end, spaces);
      next, nextSpaces, more := start, spaces, pieces;
      if spaces {
        if ch != Some(SPACE) {
          GapPieces(text, start, end, pieces, Margin());
          if start + 1 == end && column > WIDTH && split {
            WriteIndent();
            whitespace, indention := false, false;
            PlainFoldsOn(pieces, FoldedGap, column0, Margin(), split);
            more := pieces + [FoldedGap];
          } else {
            PlainFoldsOn(pieces, Gap(end - start), column0, Margin(), split);
            Put(text[start..end]);
            more := pieces + [Gap(end - start)];
          }
          next := end;
        }
      } else if ch.None? || ch.value == SPACE {
        Put(text[start..end]);
        if start < end {
          WordPiece(text, start, end, pieces, Margin());
          PlainFoldsOn(pieces, Word(text[start..end]), column0, Margin(), split);
          more := pieces + [Word(text[start..end])];
        } else {
          assert text[start..end] == [];
        }
        next := end;
      }
      if ch.Some? {
        HoldBack(text, start, end, next, spaces);
        nextSpaces := ch.value == SPACE;
      }
    }

    /** The plain style: words and gaps, with single spaces past the width folded. */
    method WritePlain(text: Text, split: bool) returns (ghost pieces: seq<PlainPiece>)
      requires PlainText(text) && column >= 0
      modifies this`out, this`column, this`whitespace, this`indention
      ensures PlainOk(pieces) && PlainMeaning(pieces) == text
      ensures PlainFolds(pieces, if old(whitespace) then old(column) else old(column) + 1, Margin(), split)
      ensures !split ==> FoldedGap !in pieces
      ensures out == old(out) + (if old(whitespace) || text == [] then [] else [SPACE]) + PlainPrint(pieces, Margin())
      ensures column >= 0 && (!split ==> column >= old(column))
      ensures text != [] ==> !whitespace && !indention
    {
      hide PlainText, PlainScanned, HeldBack, PlainPrint, PlainMeaning, PlainOk;
      pieces := [];
      NoFolds(column, Margin(), split);
      NoFolds(column + 1, Margin(), split);
      hide PlainColumn, PlainFolds, SingleColumn, SingleFolds;
      NothingHeldBack(text, Margin());
      if text == [] {
        AllPlainScanned(text, pieces);
        return;
      }
      if !whitespace {
        Put([SPACE]);
      }
      whitespace, indention := false, false;
      ghost var head, column0 := out, column;
      var start: nat := 0;
      var spaces := false;
      for end := 0 to |text| + 1
        invariant end <= |text| ==> HeldBack(text, start, end, spaces)
        invariant end == |text| + 1 ==> start == |text|
        invariant PlainScanned(text, start, pieces)
        invariant out == head + PlainPrint(pieces, Margin())
        invariant column >= 0 && !indention && !whitespace
        invariant column == PlainColumn(pieces, column0, Margin()) && PlainFolds(pieces, column0, Margin(), split)
        invariant !split ==> FoldedGap !in pieces && column >= old(column)
      {
        start, spaces, pieces := PlainStep(text, split, start, end, spaces, head, column0, pieces);
      }
      AllPlainScanned(text, pieces);
    }

    // Double-quoted.

    /** The held-back run, a backslash, a new line, and a backslash for a space that
        would otherwise be taken for indentation. */
    method ContinueLine(text: Text, start: nat, end: nat) returns (next: nat)
      requires start <= end + 1 <= |text| && (start <= end || start < |text|) && column >= 0 && !indention
      modifies this`out, this`column, this`whitespace, this`indention
      ensures next == if start <= end then end else start
      ensures !indention && !whitespace
      ensures var space := text[next] == SPACE;
              var run := if start <= end then text[start..end] else [];
              && out == old(out) + run + Continuation(space).Print(Margin())
              && column == if space then Margin() + 1 else Margin()
    {
      hide NewLine, Continuation, DoublePiece.Print;
      var data := if start < end then text[start..end] else [];
      next := if start < end then end else start;
      ContinuationText(out, data, Margin(), text[next] == SPACE);
      Put(data + [BACKSLASH]);
      WriteIndent();
      whitespace, indention := false, false;
      if text[next] == SPACE {
        Put([BACKSLASH]);
      }
    }

    /** `text[end]` is escaped, and the line may continue after it. */
    method EscapeAt(text: Text, split: bool, start: nat, end: nat, ghost head: Text,
                      ghost column0: int, ghost folded: bool, ghost pieces: seq<DoublePiece>)
      returns (next: nat, ghost foldedNext: bool, ghost more: seq<DoublePiece>)
      requires end < |text| && Printed(text, start, pieces) && column >= 0 && !indention
      requires Tracking(text, column0, Margin(), split, start, end, column, folded, pieces)
      requires out == head + DoublePrint(pieces, Margin())
      requires !Verbatim(text[end])
      modifies this`out, this`column, this`whitespace, this`indention
      ensures Printed(text, next, more) && column >= 0 && !indention
      ensures Tracking(text, column0, Margin(), split, next, end + 1, column, foldedNext, more)
      ensures out == head + DoublePrint(more, Margin())
      ensures !split ==> column >= old(column) && (OneLine(pieces) ==> OneLine(more))
    {
      hide Printed, Tracking, DoublePrint, WithContinuation, Continuation, DoublePiece.Print, Flushed, EndsAtSpace;
      var ch := text[end];
      StepBounds(text, column0, Margin(), split, start, end, column, folded, pieces);
      var run := text[start..end];
      EscapeStep(text, start, end, pieces);
      more, foldedNext := Flushed(pieces, run) + [Escaped(ch)], folded;
      EscapedPrint(head, pieces, run, ch, Margin());
      OneLineEscape(pieces, run, ch);
      hide Escape, Verbatim, AllVerbatim, OneLine;
      Put(run);
      Put(Escape(ch));
      next := end + 1;
      if Continues(text, split, next, end, column) {
        TrackEscapeContinue(text, column0, Margin(), split, start, end, old(column), folded, pieces);
        ContinueHere(text, end + 1, more);
        ContinuationPrint(more, text[end + 1] == SPACE, Margin());
        next := ContinueLine(text, next, end);
        more, foldedNext := WithContinuation(more, text[end + 1] == SPACE), true;
      } else {
        TrackEscape(text, column0, Margin(), split, start, end, old(column), folded, pieces);
      }
    }

    /** What the scan does at `text[end]`. */
    method DoubleStep(text: Text, split: bool, start: nat, end: nat, ghost head: Text,
                      ghost column0: int, ghost folded: bool, ghost pieces: seq<DoublePiece>)
      returns (next: nat, ghost foldedNext: bool, ghost more: seq<DoublePiece>)
      requires end < |text| && Printed(text, start, pieces) && column >= 0 && !indention
      requires Tracking(text, column0, Margin(), split, start, end, column, folded, pieces)
      requires out == head + DoublePrint(pieces, Margin())
      modifies this`out, this`column, this`whitespace, this`indention
      ensures Printed(text, next, more) && column >= 0 && !indention
      ensures Tracking(text, column0, Margin(), split, next, end + 1, column, foldedNext, more)
      ensures out == head + DoublePrint(more, Margin())
      ensures !split ==> column >= old(column) && (OneLine(pieces) ==> OneLine(more))
    {
      hide Printed, Tracking, DoublePrint, WithContinuation, Continuation, DoublePiece.Print, Flushed, EndsAtSpace;
      if !Verbatim(text[end]) {
        next, foldedNext, more := EscapeAt(text, split, start, end, head, column0, folded, pieces);
        return;
      }
      next, foldedNext, more := start, folded, pieces;
      if Continues(text, split, start, end, column) {
        StepBounds(text, column0, Margin(), split, start, end, column, folded, pieces);
        ghost var run, space := text[start..end], text[end] == SPACE;
        TrackContinue(text, column0, Margin(), split, start, end, column, folded, pieces);
        ContinueStep(text, start, end, pieces);
        FlushedPrint(pieces, run, Margin());
        ContinuationPrint(Flushed(pieces, run), space, Margin());
        next := ContinueLine(text, start, end);
        more, foldedNext := WithContinuation(Flushed(pieces, run), space), true;
      } else {
        TrackPlain(text, column0, Margin(), split, start, end, column, folded, pieces);
      }
    }

    /** The double-quoted style carries every text. Its pieces mean the text; one is
        torn exactly where a margin of 80 or more makes the line fold twice around a
        space. */
    method WriteDoubleQuoted(text: Text, split: bool) returns (ghost pieces: seq<DoublePiece>)
      requires column >= 0
      modifies this`out, this`column, this`whitespace, this`indention
      ensures DoubleOk(pieces) && DoubleMeaning(pieces) == text
      ensures !split ==> OneLine(pieces)
      ensures Torn in pieces <==>
                Tears(text, old(column) + |Opening(DQUOTE, old(whitespace))|, Margin(), split)
      ensures out == old(out) + Opening(DQUOTE, old(whitespace)) + DoublePrint(pieces, Margin()) + [DQUOTE]
      ensures column >= 0 && !whitespace && !indention && (!split ==> column >= old(column))
    {
      hide Printed, Tracking, DoublePrint, DoubleOk, DoubleMeaning, Tears, Flushed;
      WriteIndicator([DQUOTE], true, false, false);
      ghost var head, column0, folded := out, column, false;
      pieces := [];
      var start: nat := 0;
      NothingPrinted(text, Margin());
      StartTracking(text, column0, Margin(), split);
      for end := 0 to |text|
        invariant Printed(text, start, pieces) && column >= 0 && !indention
        invariant Tracking(text, column0, Margin(), split, start, end, column, folded, pieces)
        invariant out == head + DoublePrint(pieces, Margin())
        invariant !split ==> OneLine(pieces) && column >= old(column)
      {
        start, folded, pieces := DoubleStep(text, split, start, end, head, column0, folded, pieces);
      }
      LastRun(text, column0, Margin(), split, start, column, folded, pieces);
      if start < |text| {
        Put(text[start..]);
      }
      pieces := Flushed(pieces, text[start..]);
      WriteIndicator([DQUOTE], false, false, false);
    }

    // One scalar node.

    /** For a block collection: two further in, or not at all. */
    method IncreaseIndent(indentless: bool)
      modifies this`indent, this`indents
      ensures indents == old(indents) + [old(indent)]
      ensures indent == Some(if old(indent).None? then 0
                             else if indentless then old(indent).value else old(indent).value + BEST_INDENT)
    {
      indents := indents + [indent];
      if indent.None? {
        indent := Some(0);
      } else if !indentless {
        indent := Some(indent.value + BEST_INDENT);
      }
    }

    method IncreaseIndentForFlow()
      modifies this`indent, this`indents
      ensures indents == old(indents) + [old(indent)]
      ensures indent == Some(if old(indent).Some? then old(indent).value + BEST_INDENT else BEST_INDENT)
    {
      indents := indents + [indent];
      indent := Some(if indent.Some? then indent.value + BEST_INDENT else BEST_INDENT);
    }

    /** The printed text after its separating space, if it gets one, and what a reader
        makes of it. */
    method WriteInStyle(style: Style, text: Text, simpleKey: bool) returns (ghost printed: Text, ghost read: Text)
      requires column >= 0
      requires style.Plain? ==> PlainText(text) && (simpleKey ==> text != [])
      requires style.Single? ==> SingleText(text) && (simpleKey ==> LF !in text)
      modifies this`out, this`column, this`whitespace, this`indention
      ensures column >= 0 && (simpleKey ==> column >= old(column))
      ensures out == old(out) + Apart(style, text, old(whitespace)) + printed
      ensures !Nothing(style, text) ==> StartsScalar(printed) && !whitespace && !indention
      ensures simpleKey ==> Unbroken(printed)
      ensures ReadsBack(printed, read, Margin(), simpleKey)
      ensures ReadsBack(printed, text, Margin(), simpleKey) <==> read == text
      ensures read == text <==>
              !(style.Double? && Tears(text, old(column) + |Opening(DQUOTE, old(whitespace))|, Margin(), !simpleKey))
      ensures if style.Plain? then ReadsPlain(printed, simpleKey) else Quoted(printed)
    {
      hide SingleText, PlainText, Tears, ReadsBack, SinglePrint, DoublePrint, PlainPrint, SingleOk, DoubleOk, PlainOk;
      hide StartsPlain, ReadsPlain, DoubleReading;
      ghost var before := out;
      read := text;
      match style {
        case Plain =>
          ghost var pieces := WritePlain(text, !simpleKey);
          printed := PlainPrint(pieces, Margin());
          PlainReadsBack(pieces, text, Margin(), simpleKey);
          if text != [] {
            PlainStarts(pieces, text, Margin());
          }
          assert before + [] == before;
        case Single =>
          ghost var pieces := WriteSingleQuoted(text, !simpleKey);
          printed := [SQUOTE] + SinglePrint(pieces, Margin()) + [SQUOTE];
          SingleReadsBack(pieces, text, Margin(), simpleKey);
          Regroup(before, SQUOTE, SinglePrint(pieces, Margin()));
        case Double =>
          ghost var pieces := WriteDoubleQuoted(text, !simpleKey);
          printed := [DQUOTE] + DoublePrint(pieces, Margin()) + [DQUOTE];
          read := DoubleReading(pieces);
          DoubleReadsBack(pieces, text, Margin(), simpleKey);
          Regroup(before, DQUOTE, DoublePrint(pieces, Margin()));
      }
    }

    /** Print a scalar in the style its text, tag and place call for. It panics exactly
        on a sign followed by a colon. Otherwise the text comes back if and only if it
        can be single-quoted or nothing tears, and text and tag both come back if and
        only if moreover the tag is what a reader gives to the print: its own type's if
        plain, the string tag if quoted. A key stays on one line. */
    method EmitScalar(text: Text, tag: Tag, simpleKey: bool)
      returns (style: Option<Style>, ghost printed: Text, ghost read: Text)
      requires column >= 0
      modifies this
      ensures style == if SignColon(text) then None else Some(StyleFor(text, tag, simpleKey))
      ensures column >= 0 && (simpleKey ==> column >= old(column)) && indent == old(indent) && indents == old(indents)
      ensures !SignColon(text) ==>
                var margin := ScalarMargin(old(indent));
                var column0 := old(column) + |Opening(DQUOTE, old(whitespace))|;
                var whole := SingleText(text) || !Tears(text, column0, margin, !simpleKey);
                && out == old(out) + Apart(style.value, text, old(whitespace)) + printed
                && (!Nothing(style.value, text) ==> StartsScalar(printed) && !whitespace && !indention)
                && (simpleKey ==> Unbroken(printed))
                && (ReadsBack(printed, text, margin, simpleKey) <==> whole)
                && (NodeReadsBack(printed, text, tag, margin, simpleKey) <==>
                      whole && KeepsTag(text, tag, simpleKey))
                && NodeReadsBack(printed, read, TagAs(style.value, text), margin, simpleKey)
                && (read == text <==> whole)
    {
      hide SingleText, PlainText, Tears, ReadsBack, NodeReadsBack, ReadsPlain, Quoted, SignColon, ResolvePlain, Opening;
      hide StartsPlain, Resolved;
      var analysis := AnalyzeScalar(text);
      var resolved := ResolvePlain(text);
      ResolvePanicsIff(text);
      if resolved.None? {
        return None, [], [];
      }
      var chosen := ChooseStyle(analysis, resolved.value == tag, simpleKey);
      IncreaseIndentForFlow();
      printed, read := WriteInStyle(chosen, text, simpleKey);
      indent := indents[|indents| - 1];
      indents := indents[..|indents| - 1];
      style := Some(chosen);
      ChosenFor(text, tag, simpleKey, analysis);
      NodeIff(printed, text, tag, ScalarMargin(indent), simpleKey, chosen);
      OneLineNeverTears(text, old(column) + |Opening(DQUOTE, old(whitespace))|, ScalarMargin(indent));
      NodeIff(printed, read, TagAs(chosen, text), ScalarMargin(indent), simpleKey, chosen);
    }
  }

  /** Nothing is printed. */
  predicate Nothing(style: Style, text: Text) {
    style.Plain? && text == []
  }

  /** What sets a scalar off from what precedes it. */
  function Apart(style: Style, text: Text, whitespace: bool): Text {
    if whitespace || Nothing(style, text) then [] else [SPACE]
  }

  /** A first character that a reader takes for the start of a scalar. */
  predicate StartsScalar(s: Text) {
    s != [] && Ordinary(s[0]) && (Quoted(s) || StartsPlain(s))
  }

  datatype Style = Plain | Single | Double

  /** Plain if it reads back with the right tag, single-quoted if it can, else double. */
  function ChooseStyle(a: Analysis, implicit: bool, simpleKey: bool): Style {
    if implicit && !(simpleKey && (a.empty || a.multiline)) && a.allowBlockPlain then Plain
    else if a.allowSingleQuoted && !(simpleKey && a.multiline) then Single
    else Double
  }

  /** The plain style carries the text and resolves to its tag. */
  ghost predicate PlainFor(text: Text, tag: Tag, simpleKey: bool) {
    PlainText(text) && ResolvePlain(text) == Some(tag) && !(simpleKey && text == [])
  }

  /** The tag a reader gives to a text in a style. */
  function TagAs(style: Style, text: Text): Tag {
    if style.Plain? then Resolved(text) else Str
  }

  /** The print carries the tag. */
  ghost predicate KeepsTag(text: Text, tag: Tag, simpleKey: bool) {
    TagAs(StyleFor(text, tag, simpleKey), text) == tag
  }

  ghost function StyleFor(text: Text, tag: Tag, simpleKey: bool): Style {
    if PlainFor(text, tag, simpleKey) then Plain
    else if SingleText(text) && !(simpleKey && LF in text) then Single
    else Double
  }

  lemma ChosenFor(text: Text, tag: Tag, simpleKey: bool, a: Analysis)
    requires a.empty <==> text == []
    requires a.multiline <==> exists c :: c in text && IsBreak(c)
    requires a.allowBlockPlain <==> PlainText(text)
    requires a.allowSingleQuoted <==> SingleText(text)
    ensures ChooseStyle(a, ResolvePlain(text) == Some(tag), simpleKey) == StyleFor(text, tag, simpleKey)
    ensures PlainText(text) ==> SingleText(text)
  {
    hide ResolvePlain, IndicatorAt, StartsDocument;
    if LF in text {
      assert IsBreak(LF);
    }
  }

  lemma OneLineNeverTears(text: Text, column: int, margin: nat)
    ensures !Tears(text, column, margin, false)
  {
  }

  function ScalarMargin(indent: Option<nat>): nat {
    if indent.Some? then indent.value + BEST_INDENT else BEST_INDENT
  }

  /** What may follow a scalar: the colon of its key, or the end of its line. */
  predicate Terminates(simpleKey: bool, rest: Text, n: nat) {
    if simpleKey then KeyEnds(rest) else EndsPlain(rest, n) && !KeyEnds(rest)
  }

  /** A reader makes `text` of it, in any context indented by at most `margin`, and
      leaves what follows alone. */
  ghost predicate ReadsBack(printed: Text, text: Text, margin: nat, simpleKey: bool) {
    forall n: nat, rest: Text :: n <= margin && Terminates(simpleKey, rest, n) ==>
      ReadScalar(printed + rest, n) == Some(Reading(text, rest))
  }

  /** A scalar as a reader takes it: a quoted one is a string, a plain one is what it
      resolves to. */
  datatype Node = Node(tag: Tag, value: Text, rest: Text)

  predicate Quoted(s: Text) {
    s != [] && (s[0] == SQUOTE || s[0] == DQUOTE)
  }

  function ReadNode(s: Text, n: nat): Option<Node> {
    match ReadScalar(s, n)
    case None => None
    case Some(r) =>
      Some(Node(if Quoted(s) then Str else Resolved(r.value), r.value, r.rest))
  }

  ghost predicate NodeReadsBack(printed: Text, text: Text, tag: Tag, margin: nat, simpleKey: bool) {
    forall n: nat, rest: Text :: n <= margin && Terminates(simpleKey, rest, n) ==>
      ReadNode(printed + rest, n) == Some(Node(tag, text, rest))
  }

  /** Whatever follows, it is taken for a plain scalar. */
  ghost predicate ReadsPlain(printed: Text, simpleKey: bool) {
    forall n: nat, rest: Text :: Terminates(simpleKey, rest, n) ==> !Quoted(printed + rest)
  }

  /** Text and tag come back exactly when the text does and the style has the tag. */
  lemma NodeIff(printed: Text, text: Text, tag: Tag, margin: nat, simpleKey: bool, style: Style)
    requires if style.Plain? then ReadsPlain(printed, simpleKey) else Quoted(printed)
    ensures NodeReadsBack(printed, text, tag, margin, simpleKey) <==>
            ReadsBack(printed, text, margin, simpleKey) && TagAs(style, text) == tag
  {
    hide ReadScalar, Resolved, EndsPlain;
    if NodeReadsBack(printed, text, tag, margin, simpleKey) {
      forall n: nat, rest: Text | n <= margin && Terminates(simpleKey, rest, n)
        ensures ReadScalar(printed + rest, n) == Some(Reading(text, rest))
      {
        assert ReadNode(printed + rest, n) == Some(Node(tag, text, rest));
      }
      var end: Text := if simpleKey then [COLON] else [];
      SomethingFollows(simpleKey, end);
      assert ReadNode(printed + end, 0) == Some(Node(tag, text, end));
    }
    if ReadsBack(printed, text, margin, simpleKey) && TagAs(style, text) == tag {
      forall n: nat, rest: Text | n <= margin && Terminates(simpleKey, rest, n)
        ensures ReadNode(printed + rest, n) == Some(Node(tag, text, rest))
      {
        assert ReadScalar(printed + rest, n) == Some(Reading(text, rest));
      }
    }
  }

  lemma SomethingFollows(simpleKey: bool, end: Text)
    requires end == if simpleKey then [COLON] else []
    ensures Terminates(simpleKey, end, 0)
  {
  }

  lemma Regroup(before: Text, quote: Code, body: Text)
    ensures before + Opening(quote, true) + body + [quote] == before + ([quote] + body + [quote])
    ensures before + Opening(quote, false) + body + [quote] == before + [SPACE] + ([quote] + body + [quote])
  {
  }

  // No line breaks in one-line pieces.

  lemma {:induction false} OneLinePlain(pieces: seq<PlainPiece>, margin: nat)
    requires PlainLinked(pieces) && FoldedGap !in pieces
    ensures Unbroken(PlainPrint(pieces, margin))
    decreases |pieces|
  {
    if pieces != [] {
      var p := pieces[0];
      assert p in pieces && p.Ok();
      forall i | 0 <= i < |pieces[1..]| - 1 ensures Alternate(pieces[1..][i], pieces[1..][i + 1]) {
        assert Alternate(pieces[i + 1], pieces[i + 2]);
      }
      OneLinePlain(pieces[1..], margin);
      assert Unbroken(p.Print(margin));
    }
  }

  lemma {:induction false} OneLineSingle(pieces: seq<SinglePiece>, margin: nat)
    requires SingleOk(pieces) && Fold !in pieces && LF !in SingleMeaning(pieces)
    ensures Unbroken(SinglePrint(pieces, margin))
    decreases |pieces|
  {
    if pieces != [] {
      var p := pieces[0];
      assert p in pieces && p.Ok();
      SingleOkTail(pieces);
      assert forall c :: c in p.Meaning() ==> c in SingleMeaning(pieces);
      assert forall c :: c in SingleMeaning(pieces[1..]) ==> c in SingleMeaning(pieces);
      OneLineSingle(pieces[1..], margin);
      assert Unbroken(p.Print(margin));
    }
  }

  lemma {:induction false} OneLineDouble(pieces: seq<DoublePiece>, margin: nat)
    requires DoubleLinked(pieces) && OneLine(pieces)
    ensures Unbroken(DoublePrint(pieces, margin))
    decreases |pieces|
  {
    hide Escape;
    if pieces != [] {
      var p := pieces[0];
      assert p in pieces && p.Ok();
      forall i | 0 <= i < |pieces[1..]| - 1 ensures Follows(pieces[1..][i], pieces[1..][i + 1]) {
        assert Follows(pieces[i + 1], pieces[i + 2]);
      }
      OneLineDouble(pieces[1..], margin);
      if p.Escaped? {
        EscapeOnOneLine(p.c);
      }
      assert Unbroken(p.Print(margin));
    }
  }

  lemma EscapeOnOneLine(c: Code)
    ensures Unbroken(Escape(c))
  {
    HexOnOneLine(c, 2);
    HexOnOneLine(c, 4);
    HexOnOneLine(c, 8);
    hide Hex;
  }

  lemma {:induction false} HexOnOneLine(c: nat, width: nat)
    ensures Unbroken(Hex(c, width))
  {
    if width > 0 {
      HexOnOneLine(c / 16, width - 1);
    }
  }

  // Reading back.

  lemma PlainReadsBack(pieces: seq<PlainPiece>, text: Text, margin: nat, simpleKey: bool)
    requires PlainText(text) && PlainOk(pieces) && PlainMeaning(pieces) == text && (simpleKey ==> text != [])
    requires simpleKey ==> FoldedGap !in pieces
    ensures ReadsBack(PlainPrint(pieces, margin), text, margin, simpleKey)
    ensures ReadsPlain(PlainPrint(pieces, margin), simpleKey)
    ensures simpleKey ==> Unbroken(PlainPrint(pieces, margin))
  {
    hide ReadPlain, ReadSingle, ReadDouble, PlainPrint;
    var printed := PlainPrint(pieces, margin);
    forall n: nat, rest: Text | Terminates(simpleKey, rest, n) ensures !Quoted(printed + rest) {
      PlainBegins(pieces, text, rest, margin, simpleKey, n);
    }
    forall n: nat, rest: Text | n <= margin && Terminates(simpleKey, rest, n)
      ensures ReadScalar(printed + rest, n) == Some(Reading(text, rest))
    {
      PlainReads(pieces, rest, margin, n);
      PlainBegins(pieces, text, rest, margin, simpleKey, n);
    }
    if simpleKey {
      OneLinePlain(pieces, margin);
    }
  }

  lemma PlainBegins(pieces: seq<PlainPiece>, text: Text, rest: Text, margin: nat, simpleKey: bool, n: nat)
    requires PlainText(text) && PlainOk(pieces) && PlainMeaning(pieces) == text
    requires (simpleKey ==> text != []) && Terminates(simpleKey, rest, n)
    ensures StartsPlain(PlainPrint(pieces, margin) + rest)
  {
    hide NextLine;
    if pieces == [] {
      assert PlainPrint(pieces, margin) + rest == rest;
    } else {
      var p, more := pieces[0], pieces[1..];
      assert p in pieces && p.Ok();
      assert text[0] == p.Meaning()[0];
      assert p.Word? && !IndicatorAt(text, 0);
      var s := PlainPrint(pieces, margin) + rest;
      assert s[0] == text[0];
      if |p.text| > 1 {
        assert s[1] == p.text[1] && p.text[1] in p.text;
      } else if more != [] {
        assert Alternate(pieces[0], pieces[1]) && pieces[1] in pieces;
        assert text[1] == pieces[1].Meaning()[0] == SPACE;
      }
    }
  }

  lemma PlainStarts(pieces: seq<PlainPiece>, text: Text, margin: nat)
    requires PlainText(text) && PlainOk(pieces) && PlainMeaning(pieces) == text && text != []
    ensures StartsScalar(PlainPrint(pieces, margin))
  {
    PlainBegins(pieces, text, [], margin, false, 0);
    assert PlainPrint(pieces, margin) + [] == PlainPrint(pieces, margin);
    hide StartsPlain;
    var p := pieces[0];
    assert p in pieces && p.Ok();
    assert text[0] == p.Meaning()[0] && text[0] in text;
  }

  lemma SingleReadsBack(pieces: seq<SinglePiece>, text: Text, margin: nat, simpleKey: bool)
    requires SingleOk(pieces) && SingleMeaning(pieces) == text
    requires simpleKey ==> Fold !in pieces && LF !in text
    ensures ReadsBack([SQUOTE] + SinglePrint(pieces, margin) + [SQUOTE], text, margin, simpleKey)
    ensures simpleKey ==> Unbroken(SinglePrint(pieces, margin))
  {
    hide ReadPlain, ReadSingle, ReadDouble, SinglePrint, SingleOk, SingleMeaning, NextLine;
    var body := SinglePrint(pieces, margin);
    var printed := [SQUOTE] + body + [SQUOTE];
    forall n: nat, rest: Text | n <= margin && Terminates(simpleKey, rest, n)
      ensures ReadScalar(printed + rest, n) == Some(Reading(text, rest))
    {
      SingleReads(pieces, rest, margin, n);
      assert (printed + rest)[0] == SQUOTE && (printed + rest)[1..] == body + ([SQUOTE] + rest);
    }
    if simpleKey {
      OneLineSingle(pieces, margin);
    }
  }

  lemma DoubleReadsBack(pieces: seq<DoublePiece>, text: Text, margin: nat, simpleKey: bool)
    requires DoubleOk(pieces) && DoubleMeaning(pieces) == text
    requires simpleKey ==> OneLine(pieces)
    ensures ReadsBack([DQUOTE] + DoublePrint(pieces, margin) + [DQUOTE], text, margin, simpleKey)
            <==> Torn !in pieces
    ensures ReadsBack([DQUOTE] + DoublePrint(pieces, margin) + [DQUOTE], DoubleReading(pieces), margin, simpleKey)
    ensures DoubleReading(pieces) == text <==> Torn !in pieces
    ensures simpleKey ==> Unbroken(DoublePrint(pieces, margin))
  {
    hide ReadPlain, ReadSingle, ReadDouble, DoublePrint, DoubleMeaning, NextLine;
    var body := DoublePrint(pieces, margin);
    var printed := [DQUOTE] + body + [DQUOTE];
    ReadingIsMeaning(pieces);
    forall n: nat, rest: Text | n <= margin
      ensures ReadScalar(printed + rest, n) == Some(Reading(DoubleReading(pieces), rest))
    {
      DoubleReads(pieces, rest, margin, n);
      assert (printed + rest)[0] == DQUOTE && (printed + rest)[1..] == body + ([DQUOTE] + rest);
    }
    if Torn in pieces {
      assert !simpleKey;
      assert Terminates(simpleKey, [], 0);
    }
    if simpleKey {
      OneLineDouble(pieces, margin);
    }
  }

  /** Whether printing `text` from `column` tears a continuation. */
  ghost predicate Tears(text: Text, column: int, margin: nat, split: bool) {
    split && margin >= WIDTH && exists e: nat :: TearAt(text, column, e)
  }

  const TORN_TEXT: Text := [97, TAB, SPACE, 98]

  lemma TornTextTears()
    ensures Tears(TORN_TEXT, 81, 80, true) && !SingleText(TORN_TEXT) && !SignColon(TORN_TEXT)
  {
    var text := TORN_TEXT;
    assert text[..2][..1] == [97] && [97][..0] == [];
    assert Width(text[..2]) == 3;
    assert TearAt(text, 81, 1);
    assert text[1] in text && !Printable(text[1]);
  }

  /** It does happen: an item that is `a`, a tab, a space and `b`, forty levels deep, does
      not come back. */
  method DeepMarginTears() returns (out: Text, ghost printed: Text)
    ensures out == Repeat(SPACE, 78) + [45] + [SPACE] + printed
    ensures !ReadsBack(printed, TORN_TEXT, 80, false)
  {
    hide ReadsBack, Tears, SingleText, SignColon, ResolvePlain, NodeReadsBack, KeepsTag, TagAs, Unbroken, StartsScalar;
    hide Repeat;
    var e := new Emitter();
    e.IncreaseIndentForFlow();
    for i := 1 to 39
      invariant e.indent == Some(2 * i) && e.column == 0 && e.whitespace && e.indention && e.out == []
    {
      e.IncreaseIndentForFlow();
    }
    e.WriteIndent();
    assert [] + Repeat(SPACE, 78) == Repeat(SPACE, 78);
    e.WriteIndicator([45], true, false, true);
    TornTextTears();
    var style;
    ghost var read;
    style, printed, read := e.EmitScalar(TORN_TEXT, Str, false);
    out := e.out;
  }

  lemma LastRun(text: Text, column0: int, margin: nat, split: bool,
                start: nat, column: int, folded: bool, pieces: seq<DoublePiece>)
    requires Printed(text, start, pieces)
    requires Tracking(text, column0, margin, split, start, |text|, column, folded, pieces)
    ensures start <= |text|
    ensures var all := Flushed(pieces, text[start..]);
            && DoubleOk(all) && DoubleMeaning(all) == text
            && (Torn in all <==> Tears(text, column0, margin, split))
            && DoublePrint(all, margin) == DoublePrint(pieces, margin) + text[start..]
            && (OneLine(pieces) ==> OneLine(all))
  {
    assert text[start..] == text[start..|text|];
    Finish(text, start, pieces);
    FlushedPrint(pieces, text[start..], margin);
    hide DoubleOk, DoubleMeaning, DoublePrint, Printed;
    assert forall e: nat :: TearAt(text, column0, e) ==> e + 1 < |text|;
  }

  /** The opening quote, set off from what precedes it. */
  function Opening(quote: Code, whitespace: bool): Text {
    if whitespace then [quote] else [SPACE, quote]
  }

  ghost predicate OneLine(pieces: seq<DoublePiece>) {
    forall p :: p in pieces ==> p.Raw? || p.Escaped?
  }

  lemma HeldBounds(text: Text, start: nat, end: nat, spaces: bool)
    requires HeldBack(text, start, end, spaces)
    ensures start <= end <= |text| && (spaces ==> start < end)
  {
  }

  /** The two ways to print a run of spaces. */
  lemma GapPieces(text: Text, start: nat, end: nat, pieces: seq<PlainPiece>, margin: nat)
    requires PlainText(text) && HeldBack(text, start, end, true) && PlainScanned(text, start, pieces)
    requires end < |text| ==> text[end] != SPACE
    ensures PlainScanned(text, end, pieces + [Gap(end - start)])
    ensures PlainPrint(pieces + [Gap(end - start)], margin) == PlainPrint(pieces, margin) + text[start..end]
    ensures start + 1 == end ==> PlainScanned(text, end, pieces + [FoldedGap])
    ensures PlainPrint(pieces + [FoldedGap], margin) == PlainPrint(pieces, margin) + NewLine(margin)
  {
    var run := text[start..end];
    RepeatIs(SPACE, run);
    ScanGap(text, start, end, pieces, Gap(end - start));
    PlainAppend(pieces, Gap(end - start), margin);
    PlainAppend(pieces, FoldedGap, margin);
    if start + 1 == end {
      assert FoldedGap.Meaning() == run;
      ScanGap(text, start, end, pieces, FoldedGap);
    }
  }

  lemma WordPiece(text: Text, start: nat, end: nat, pieces: seq<PlainPiece>, margin: nat)
    requires PlainText(text) && HeldBack(text, start, end, false) && start < end
    requires end == |text| || text[end] == SPACE
    requires PlainScanned(text, start, pieces)
    ensures PlainScanned(text, end, pieces + [Word(text[start..end])])
    ensures PlainPrint(pieces + [Word(text[start..end])], margin) == PlainPrint(pieces, margin) + text[start..end]
  {
    hide PlainText, PlainScanned;
    ScanWord(text, start, end, pieces);
    PlainAppend(pieces, Word(text[start..end]), margin);
  }

  lemma StepBounds(text: Text, column0: int, margin: nat, split: bool,
                   start: nat, end: nat, column: int, folded: bool, pieces: seq<DoublePiece>)
    requires Printed(text, start, pieces) && end < |text|
    requires Tracking(text, column0, margin, split, start, end, column, folded, pieces)
    ensures start <= end && AllVerbatim(text[start..end])
    ensures pieces != [] && pieces[|pieces| - 1].Torn? ==> start < end
    ensures start == end && EndsAtSpace(pieces) ==> text[end] == SPACE
    ensures (start < end || text[start..end] != []) ==> !EndsAtSpace(Flushed(pieces, text[start..end]))
    ensures start == end ==> Flushed(pieces, text[start..end]) == pieces
  {
    hide DoubleLinked, DoubleMeaning;
  }

  lemma ContinuationText(before: Text, data: Text, margin: nat, space: bool)
    ensures var line := before + (data + [BACKSLASH]) + NewLine(margin);
            before + data + Continuation(space).Print(margin) == if space then line + [BACKSLASH] else line
  {
    hide NewLine;
  }

  lemma ContinueHere(text: Text, at: nat, pieces: seq<DoublePiece>)
    requires at < |text| && Printed(text, at, pieces)
    requires pieces != [] ==> pieces[|pieces| - 1].Escaped?
    ensures Printed(text, at, WithContinuation(pieces, text[at] == SPACE))
  {
    hide Printed, WithContinuation;
    assert text[at..at] == [];
    ContinueStep(text, at, at, pieces);
  }

  lemma EscapedPrint(head: Text, pieces: seq<DoublePiece>, run: Text, c: Code, margin: nat)
    ensures var all := Flushed(pieces, run) + [Escaped(c)];
            && head + DoublePrint(all, margin) == head + DoublePrint(pieces, margin) + run + Escape(c)
            && !EndsAtSpace(all) && all[|all| - 1] == Escaped(c)
  {
    FlushedPrint(pieces, run, margin);
    DoubleAppend(Flushed(pieces, run), Escaped(c), margin);
    hide DoublePrint, Escape;
  }

  lemma OneLineEscape(pieces: seq<DoublePiece>, run: Text, c: Code)
    ensures OneLine(pieces) ==> OneLine(Flushed(pieces, run) + [Escaped(c)])
  {
  }

  /** The text printed so far and how it ends. */
  ghost predicate Scanned(text: Text, start: nat, pieces: seq<SinglePiece>) {
    && start <= |text|
    && SingleOk(pieces)
    && SingleMeaning(pieces) == text[..start]
    && (!Settled(pieces) && start < |text| ==> Ordinary(text[start]))
  }

  // Where lines are folded.

  /** The column after `pieces` that start at `column`. */
  function PlainColumn(pieces: seq<PlainPiece>, column: int, margin: nat): int {
    if pieces == [] then column
    else
      match pieces[|pieces| - 1]
      case Word(cs) => PlainColumn(pieces[..|pieces| - 1], column, margin) + |cs|
      case Gap(k) => PlainColumn(pieces[..|pieces| - 1], column, margin) + k
      case FoldedGap => margin
  }

  /** A single space is folded exactly when it comes past the width. */
  ghost predicate PlainFolds(pieces: seq<PlainPiece>, column: int, margin: nat, split: bool) {
    forall i :: 0 <= i < |pieces| ==>
      && (pieces[i].FoldedGap? ==> split && PlainColumn(pieces[..i], column, margin) > WIDTH)
      && (pieces[i] == Gap(1) && split ==> PlainColumn(pieces[..i], column, margin) <= WIDTH)
  }

  lemma PlainFoldsOn(pieces: seq<PlainPiece>, p: PlainPiece, column: int, margin: nat, split: bool)
    requires PlainFolds(pieces, column, margin, split)
    requires p.FoldedGap? ==> split && PlainColumn(pieces, column, margin) > WIDTH
    requires p == Gap(1) && split ==> PlainColumn(pieces, column, margin) <= WIDTH
    ensures PlainFolds(pieces + [p], column, margin, split)
    ensures PlainColumn(pieces + [p], column, margin)
         == match p
            case Word(cs) => PlainColumn(pieces, column, margin) + |cs|
            case Gap(k) => PlainColumn(pieces, column, margin) + k
            case FoldedGap => margin
  {
    var all := pieces + [p];
    assert all[..|pieces|] == pieces;
    assert forall i :: 0 <= i < |pieces| ==> all[..i] == pieces[..i];
  }

  function SingleColumn(pieces: seq<SinglePiece>, column: int, margin: nat): int {
    if pieces == [] then column
    else
      match pieces[|pieces| - 1]
      case Run(cs) => SingleColumn(pieces[..|pieces| - 1], column, margin) + |cs|
      case Spaces(k) => SingleColumn(pieces[..|pieces| - 1], column, margin) + k
      case Quote => SingleColumn(pieces[..|pieces| - 1], column, margin) + 2
      case _ => margin
  }

  /** A single space inside the text is folded exactly when it comes past the width;
      `done` says that the last piece is at the end of the text. */
  ghost predicate SingleFolds(pieces: seq<SinglePiece>, column: int, margin: nat, split: bool, done: bool) {
    forall i :: 0 <= i < |pieces| ==>
      && (pieces[i].Fold? ==> split && 0 < i && SingleColumn(pieces[..i], column, margin) > WIDTH)
      && (pieces[i] == Spaces(1) && split && 0 < i && !(done && i == |pieces| - 1) ==>
            SingleColumn(pieces[..i], column, margin) <= WIDTH)
  }

  lemma ColumnOfOne(column: int, margin: nat)
    ensures forall p: SinglePiece ::
              SingleColumn([p], column, margin)
              == match p
                 case Run(cs) => column + |cs|
                 case Spaces(k) => column + k
                 case Quote => column + 2
                 case _ => margin
  {
    forall p: SinglePiece
      ensures SingleColumn([p], column, margin)
           == match p
              case Run(cs) => column + |cs|
              case Spaces(k) => column + k
              case Quote => column + 2
              case _ => margin
    {
      assert [p][..0] == [];
    }
  }

  lemma QuoteColumn(column: int, margin: nat)
    ensures SingleColumn([Quote], column, margin) == column + 2
  {
    ColumnOfOne(column, margin);
  }

  lemma SingleFoldsOn(pieces: seq<SinglePiece>, p: SinglePiece, column: int, margin: nat, split: bool, done: bool)
    requires SingleFolds(pieces, column, margin, split, false)
    requires p.Fold? ==> split && pieces != [] && SingleColumn(pieces, column, margin) > WIDTH
    requires p == Spaces(1) && split && pieces != [] && !done ==> SingleColumn(pieces, column, margin) <= WIDTH
    ensures SingleFolds(pieces + [p], column, margin, split, done)
    ensures SingleColumn(pieces + [p], column, margin)
         == SingleColumn([p], SingleColumn(pieces, column, margin), margin)
  {
    var all := pieces + [p];
    assert all[..|pieces|] == pieces && [p][..0] == [];
    assert forall i :: 0 <= i < |pieces| ==> all[..i] == pieces[..i];
  }

  lemma FoldsToTheEnd(pieces: seq<SinglePiece>, column: int, margin: nat, split: bool)
    requires SingleFolds(pieces, column, margin, split, false)
    ensures SingleFolds(pieces, column, margin, split, true)
  {
  }

  lemma FirstPiece(text: Text, start: nat, pieces: seq<SinglePiece>)
    requires Scanned(text, start, pieces)
    ensures pieces == [] <==> start == 0
  {
    if pieces != [] {
      assert pieces[0] in pieces && pieces[0].Meaning() != [];
    }
  }

  lemma NoFolds(column: int, margin: nat, split: bool)
    ensures PlainColumn([], column, margin) == column && PlainFolds([], column, margin, split)
    ensures SingleColumn([], column, margin) == column
    ensures SingleFolds([], column, margin, split, true) && SingleFolds([], column, margin, split, false)
  {
  }

  predicate Settled(pieces: seq<SinglePiece>) {
    pieces == [] || pieces[|pieces| - 1].IsSolid()
  }

  lemma NothingScanned(text: Text, margin: nat)
    ensures Scanned(text, 0, []) && SinglePrint([], margin) == []
  {
  }

  lemma NothingPending(text: Text)
    ensures Pending(text, 0, 0, false, false)
  {
  }

  lemma PendingBounds(text: Text, start: nat, end: nat, spaces: bool, breaks: bool)
    requires Pending(text, start, end, spaces, breaks)
    ensures start <= end <= |text|
  {
  }

  lemma EndOfText(spaces: bool, breaks: bool)
    ensures Ends(None, spaces, breaks)
  {
  }

  lemma AllScanned(text: Text, pieces: seq<SinglePiece>)
    requires Scanned(text, |text|, pieces)
    ensures SingleOk(pieces) && SingleMeaning(pieces) == text
  {
    assert text[..|text|] == text;
  }

  lemma SettledBeforeSpaces(text: Text, start: nat, end: nat, breaks: bool, pieces: seq<SinglePiece>)
    requires Scanned(text, start, pieces) && Pending(text, start, end, true, breaks)
    ensures Settled(pieces)
  {
    assert text[start] in text[start..end];
  }

  lemma BreakIsLf(text: Text, end: nat)
    requires SingleText(text) && end < |text|
    ensures IsBreak(text[end]) ==> LF in text
  {
    assert text[end] in text;
  }

  lemma QuotePrint(margin: nat)
    ensures Quote.Print(margin) == [SQUOTE, SQUOTE]
  {
  }

  lemma AppendPiece(pieces: seq<SinglePiece>, p: SinglePiece)
    requires SingleOk(pieces) && p.Ok() && (Settled(pieces) || p.IsSolid())
    ensures SingleOk(pieces + [p])
  {
    hide SinglePiece.Ok;
    var all := pieces + [p];
    forall q | q in all ensures q.Ok() {
      assert q in pieces || q == p;
    }
  }

  lemma MeaningStep(text: Text, start: nat, end: nat, p: SinglePiece, pieces: seq<SinglePiece>)
    requires start <= end <= |text| && SingleMeaning(pieces) == text[..start] && p.Meaning() == text[start..end]
    ensures SingleMeaning(pieces + [p]) == text[..end]
  {
    SingleAppend(pieces, p, 0);
    hide SingleMeaning, SinglePiece.Meaning;
    assert text[..start] + text[start..end] == text[..end];
  }

  /** Neighbours of a flushed run: what it began with, and what stopped it. */
  lemma RunBounds(text: Text, start: nat, end: nat, spaces: bool, breaks: bool)
    requires SingleText(text) && Pending(text, start, end, spaces, breaks) && start < end
    requires Ends(if end < |text| then Some(text[end]) else None, spaces, breaks)
    ensures Ordinary(text[start]) <==> !spaces && !breaks
    ensures (spaces || breaks) && end < |text| ==> Ordinary(text[end])
  {
    assert text[start] in text[start..end] && text[end - 1] in text[start..end];
    if end < |text| {
      assert text[end] in text;
      assert !SpaceByBreak(text, end - 1);
    }
  }

  lemma ScanPiece(text: Text, start: nat, end: nat, spaces: bool, breaks: bool,
                  p: SinglePiece, pieces: seq<SinglePiece>)
    requires SingleText(text) && Scanned(text, start, pieces)
    requires Pending(text, start, end, spaces, breaks) && start < end
    requires Ends(if end < |text| then Some(text[end]) else None, spaces, breaks)
    requires p.Ok() && p.Meaning() == text[start..end] && (p.IsSolid() <==> !spaces && !breaks)
    ensures Scanned(text, end, pieces + [p])
  {
    RunBounds(text, start, end, spaces, breaks);
    MeaningStep(text, start, end, p, pieces);
    hide SinglePiece.Ok, SinglePiece.Meaning, SinglePiece.IsSolid, SingleOk, SingleMeaning, SingleText;
    hide Pending, Ends, Ordinary;
    AppendPiece(pieces, p);
    assert (pieces + [p])[|pieces|] == p;
  }

  lemma ScanQuote(text: Text, end: nat, pieces: seq<SinglePiece>)
    requires end < |text| && text[end] == SQUOTE && Scanned(text, end, pieces)
    ensures Scanned(text, end + 1, pieces + [Quote])
  {
    assert Quote.Meaning() == text[end..end + 1] && Quote.Ok() && Quote.IsSolid();
    MeaningStep(text, end, end + 1, Quote, pieces);
    hide SinglePiece.Ok, SinglePiece.Meaning, SinglePiece.IsSolid, SingleOk, SingleMeaning;
    AppendPiece(pieces, Quote);
    assert (pieces + [Quote])[|pieces|] == Quote;
  }

  lemma QuoteEnds(text: Text, first: nat, end: nat, start: nat, spaces: bool, breaks: bool)
    requires end < |text| && text[end] == SQUOTE && Pending(text, first, end, spaces, breaks)
    requires start == if first < end && Ends(Some(text[end]), spaces, breaks) then end else first
    ensures start == end
  {
  }

  /** The run that the next character joins or starts. */
  lemma NextPending(text: Text, first: nat, end: nat, start: nat, spaces: bool, breaks: bool)
    requires SingleText(text) && end < |text| && Pending(text, first, end, spaces, breaks)
    requires start == if text[end] == SQUOTE then end + 1
                      else if first < end && Ends(Some(text[end]), spaces, breaks) then end else first
    ensures Pending(text, start, end + 1, text[end] == SPACE, IsBreak(text[end]))
  {
    assert text[end] in text;
    forall c | c in text[start..end + 1]
      ensures if text[end] == SPACE then c == SPACE else if IsBreak(text[end]) then c == LF
              else Ordinary(c) && c != SQUOTE
    {
      if start <= end {
        assert text[start..end + 1] == text[start..end] + [text[end]];
        assert c in text[start..end] || c == text[end];
        assert start < end ==> start == first && !Ends(Some(text[end]), spaces, breaks);
        assert c in text[start..end] ==> c in text[first..end];
      }
    }
  }

  lemma {:induction false} OneMore(c: Code, k: nat)
    ensures Repeat(c, k + 1) == Repeat(c, k) + [c]
  {
  }

  lemma RepeatIs(c: Code, s: Text)
    requires forall x :: x in s ==> x == c
    ensures s == Repeat(c, |s|)
  {
    assert forall i :: 0 <= i < |s| ==> s[i] in s;
  }
}
