/** Which styles a scalar may be printed in. */
module YamlAnalysis {
  import opened YamlReader

  /** What the emitter takes for a line break. */
  predicate IsBreak(c: Code) {
    c == LF || c == 0x85 || c == 0x2028 || c == 0x2029
  }

  predicate IsBlank(c: Code) {
    c == 0 || c == SPACE || c == TAB || c == CR || IsBreak(c)
  }

  predicate Printable(c: Code) {
    c == LF || 0x20 <= c <= 0x7e
  }

  /** Text the single-quoted style can carry: printable, with no space next to a
      line break. */
  ghost predicate SingleText(text: Text) {
    && (forall c :: c in text ==> Printable(c))
    && forall i :: 0 <= i < |text| - 1 ==> !SpaceByBreak(text, i)
  }

  predicate SpaceByBreak(text: Text, i: nat)
    requires i + 1 < |text|
  {
    (text[i] == SPACE && text[i + 1] == LF) || (text[i] == LF && text[i + 1] == SPACE)
  }

  predicate BlankAfter(text: Text, i: nat) {
    i + 1 >= |text| || IsBlank(text[i + 1])
  }

  predicate BlankBefore(text: Text, i: nat)
    requires i <= |text|
  {
    i == 0 || IsBlank(text[i - 1])
  }

  /** A character that would begin another construct where it stands: one of
      `# , [ ] { } & * ! | > ' " % @` and the backtick in front; `?`, `:` or `-` in
      front of a blank at the start; `: ` and ` #` inside. */
  predicate IndicatorAt(text: Text, i: nat)
    requires i < |text|
  {
    var c := text[i];
    if i == 0 then
      || c in {35, 44, 91, 93, 123, 125, 38, 42, 33, 124, 62, 39, 34, 37, 64, 96}
      || (c in {63, 58, 45} && BlankAfter(text, 0))
    else
      || (c == 58 && BlankAfter(text, i))
      || (c == 35 && BlankBefore(text, i))
  }

  predicate StartsDocument(text: Text) {
    [45, 45, 45] <= text || [46, 46, 46] <= text
  }

  /** Text the plain style can carry: printable on one line, not starting or ending
      with a space, and never looking like anything else. */
  ghost predicate PlainText(text: Text) {
    && (forall c :: c in text ==> 0x20 <= c <= 0x7e)
    && (text != [] ==> text[0] != SPACE && text[|text| - 1] != SPACE)
    && !StartsDocument(text)
    && forall i :: 0 <= i < |text| ==> !IndicatorAt(text, i)
  }

  datatype Analysis = Analysis(empty: bool, multiline: bool, allowBlockPlain: bool, allowSingleQuoted: bool)

  /** The flags the scan has collected over `text[..k]`. */
  ghost predicate Collected(text: Text, k: nat, indicators: bool, breaks: bool, special: bool, misplaced: bool)
    requires k <= |text|
  {
    && (indicators <==> StartsDocument(text) || exists i :: 0 <= i < k && IndicatorAt(text, i))
    && (breaks <==> exists i :: 0 <= i < k && IsBreak(text[i]))
    && (special <==> exists i :: 0 <= i < k && !Printable(text[i]))
    && (misplaced && !special ==> exists i :: 0 <= i < k - 1 && SpaceByBreak(text, i))
    && (!misplaced ==> forall i :: 0 <= i < k - 1 ==> !SpaceByBreak(text, i))
  }

  predicate MisplacedAt(text: Text, k: nat)
    requires k < |text|
  {
    0 < k && ((text[k] == SPACE && IsBreak(text[k - 1])) || (IsBreak(text[k]) && text[k - 1] == SPACE))
  }

  lemma CollectNext(text: Text, k: nat, indicators: bool, breaks: bool, special: bool, misplaced: bool)
    requires k < |text| && Collected(text, k, indicators, breaks, special, misplaced)
    ensures Collected(text, k + 1, indicators || IndicatorAt(text, k), breaks || IsBreak(text[k]),
                      special || !Printable(text[k]), misplaced || MisplacedAt(text, k))
  {
    hide IndicatorAt;
    if MisplacedAt(text, k) && !special && Printable(text[k]) {
      assert Printable(text[k - 1]);
      assert SpaceByBreak(text, k - 1);
    }
  }

  lemma AllCollected(text: Text, indicators: bool, breaks: bool, special: bool, misplaced: bool)
    requires text != [] && Collected(text, |text|, indicators, breaks, special, misplaced)
    ensures breaks <==> exists c :: c in text && IsBreak(c)
    ensures !misplaced && !special <==> SingleText(text)
    ensures !Edge(text[0]) && !Edge(text[|text| - 1]) && !misplaced && !special && !breaks && !indicators
            <==> PlainText(text)
  {
    hide IndicatorAt, StartsDocument;
    assert forall i :: 0 <= i < |text| ==> text[i] in text;
  }

  lemma NothingCollected(text: Text)
    ensures Collected(text, 0, StartsDocument(text), false, false, false)
  {
  }

  predicate Edge(c: Code) {
    c == SPACE || IsBreak(c)
  }

  /** One pass over the characters, with what came before and what comes next. */
  method AnalyzeScalar(text: Text) returns (a: Analysis)
    ensures a.empty <==> text == []
    ensures a.multiline <==> exists c :: c in text && IsBreak(c)
    ensures a.allowBlockPlain <==> PlainText(text)
    ensures a.allowSingleQuoted <==> SingleText(text)
  {
    if text == [] {
      return Analysis(true, false, true, true);
    }
    hide Collected, StartsDocument, Printable, IsBlank, SingleText, PlainText;
    var n := |text|;
    NothingCollected(text);
    var indicators := StartsDocument(text);
    var breaks, special := false, false;
    var leading, trailing := false, false;
    var breakSpace, spaceBreak := false, false;
    var precededByBlank := true;
    var followedByBlank := n == 1 || IsBlank(text[1]);
    var previousSpace, previousBreak := false, false;
    for index := 0 to n
      invariant precededByBlank == BlankBefore(text, index)
      invariant index < n ==> followedByBlank == BlankAfter(text, index)
      invariant previousSpace == (index > 0 && text[index - 1] == SPACE)
      invariant previousBreak == (index > 0 && IsBreak(text[index - 1]))
      invariant leading == (index > 0 && Edge(text[0]))
      invariant trailing == (index == n && Edge(text[n - 1]))
      invariant Collected(text, index, indicators, breaks, special, breakSpace || spaceBreak)
    {
      var ch := text[index];
      CollectNext(text, index, indicators, breaks, special, breakSpace || spaceBreak);
      ghost var was := indicators;
      if index == 0 {
        if ch in {35, 44, 91, 93, 123, 125, 38, 42, 33, 124, 62, 39, 34, 37, 64, 96} {
          indicators := true;
        }
        if ch in {63, 58} && followedByBlank {
          indicators := true;
        }
        if ch == 45 && followedByBlank {
          indicators := true;
        }
      } else {
        if ch == 58 && followedByBlank {
          indicators := true;
        }
        if ch == 35 && precededByBlank {
          indicators := true;
        }
      }
      assert indicators == (was || IndicatorAt(text, index));
      if IsBreak(ch) {
        breaks := true;
      }
      if !Printable(ch) {
        special := true;
      }
      if ch == SPACE {
        leading := leading || index == 0;
        trailing := trailing || index == n - 1;
        breakSpace := breakSpace || previousBreak;
        previousSpace, previousBreak := true, false;
      } else if IsBreak(ch) {
        leading := leading || index == 0;
        trailing := trailing || index == n - 1;
        spaceBreak := spaceBreak || previousSpace;
        previousSpace, previousBreak := false, true;
      } else {
        previousSpace, previousBreak := false, false;
      }
      precededByBlank := IsBlank(ch);
      followedByBlank := index + 2 >= n || IsBlank(text[index + 2]);
    }
    AllCollected(text, indicators, breaks, special, breakSpace || spaceBreak);
    a := Analysis(false, breaks,
                  !leading && !trailing && !breakSpace && !spaceBreak && !special && !breaks && !indicators,
                  !breakSpace && !spaceBreak && !special);
  }
}
