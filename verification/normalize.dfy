/** The text normaliser (`_limpar_texto_profundo`, app.py:161-187): every offset
    the detector reports is relative to its output. */
module Normalize {
  import opened Text
  import opened Oracles

  /** The character class deleted first: C0 controls other than tab, line feed
      and carriage return; DEL and the C1 controls; zero-width and direction
      marks U+200B..U+200F; separators and embedding controls U+2028..U+202F. */
  predicate IsControl(c: char) {
    || c <= '\U{08}' || c == '\U{0B}' || c == '\U{0C}' || ('\U{0E}' <= c <= '\U{1F}')
    || ('\U{7F}' <= c <= '\U{9F}')
    || ('\U{200B}' <= c <= '\U{200F}')
    || ('\U{2028}' <= c <= '\U{202F}')
  }

  function RemoveControls(s: string): (r: string)
    ensures |r| <= |s|
    ensures forall i | 0 <= i < |r| :: !IsControl(r[i]) && r[i] in s
  {
    if |s| == 0 then []
    else (if IsControl(s[0]) then [] else [s[0]]) + RemoveControls(s[1..])
  }

  /** The thirty "PDF artefact" characters the source lists, U+0080..U+009D;
      each is replaced by a space. */
  predicate IsPdfArtifact(c: char) {
    '\U{80}' <= c <= '\U{9D}'
  }

  function ReplacePdfArtifacts(s: string): (r: string)
    ensures |r| == |s|
    ensures forall i | 0 <= i < |s| :: r[i] == (if IsPdfArtifact(s[i]) then ' ' else s[i])
  {
    seq(|s|, i requires 0 <= i < |s| => if IsPdfArtifact(s[i]) then ' ' else s[i])
  }

  /** Every PDF artefact is a C1 control, so the replacement pass never
      changes the output of the control-character pass. */
  lemma PdfPassIsIdentityAfterControls(s: string)
    ensures ReplacePdfArtifacts(RemoveControls(s)) == RemoveControls(s)
  {
    var c := RemoveControls(s);
    forall i | 0 <= i < |c|
      ensures !IsPdfArtifact(c[i])
    {
      assert !IsControl(c[i]);
    }
  }

  /** `re.sub(r'[class]+', ' ', s)`: every maximal run of characters
      satisfying `p` becomes a single space. */
  function CollapseRuns(s: string, p: char -> bool): (r: string)
    ensures |r| <= |s|
    ensures forall i | 0 <= i < |r| :: r[i] == ' ' || (!p(r[i]) && r[i] in s)
    ensures |s| > 0 ==> 0 < |r| && r[0] == (if p(s[0]) then ' ' else s[0])
    ensures p(' ') ==> forall i | 0 <= i < |r| - 1 :: !(r[i] == ' ' && r[i + 1] == ' ')
    decreases |s|
  {
    if |s| == 0 then []
    else if p(s[0]) then [' '] + CollapseRuns(SkipWhile(s, p), p)
    else [s[0]] + CollapseRuns(s[1..], p)
  }

  /** With a class that holds the space, the collapse rewrites only
      characters of the class: every other character is kept, in order. */
  lemma {:induction false} CollapseRunsKeepsText(s: string, p: char -> bool)
    requires p(' ')
    ensures Keep(CollapseRuns(s, p), p) == Keep(s, p)
    decreases |s|
  {
    if |s| > 0 {
      var r := CollapseRuns(s, p);
      if p(s[0]) {
        var t := SkipWhile(s, p);
        SkipWhileDropsOnlyDelims(s, p);
        CollapseRunsKeepsText(t, p);
        assert r[1..] == CollapseRuns(t, p);
      } else {
        CollapseRunsKeepsText(s[1..], p);
        assert r[1..] == CollapseRuns(s[1..], p);
      }
    }
  }

  /** A string with no character of the class is left unchanged. */
  lemma {:induction false} CollapseRunsNoOp(s: string, p: char -> bool)
    requires forall i | 0 <= i < |s| :: !p(s[i])
    ensures CollapseRuns(s, p) == s
    decreases |s|
  {
    if |s| > 0 {
      CollapseRunsNoOp(s[1..], p);
    }
  }

  predicate IsLineBreakOrTab(c: char) {
    c == '\r' || c == '\n' || c == '\t'
  }

  /** The normal form: single spaces as the only whitespace, no space at
      either end. */
  predicate Normalized(s: string) {
    && (forall i | 0 <= i < |s| :: IsSpace(s[i]) ==> s[i] == ' ')
    && NoDoubleSpace(s)
    && (|s| > 0 ==> s[0] != ' ' && s[|s| - 1] != ' ')
  }

  /** No two spaces are adjacent. Stated over pairs of positions so that a
      fact about one character does not produce a fact about the next. */
  predicate NoDoubleSpace(s: string) {
    forall i, j | 0 <= i < |s| && 0 <= j < |s| && j == i + 1 :: !(s[i] == ' ' && s[j] == ' ')
  }

  /** The whitespace passes that follow the Unicode fold: `\s+` to one space,
      then `[\r\n\t]+` to one space, then `strip()`. */
  function Squeeze(s: string): (r: string)
    ensures Normalized(r)
    ensures forall i | 0 <= i < |r| :: r[i] == ' ' || r[i] in s
  {
    var spaced := CollapseRuns(s, IsSpace);
    CollapseRunsNoOp(spaced, IsLineBreakOrTab);
    var r := Strip(CollapseRuns(spaced, IsLineBreakOrTab));
    StripOfSpaced(s, spaced, r);
    r
  }

  /** The whitespace passes rewrite whitespace only: every other character
      is kept, in order. */
  lemma SqueezeKeepsText(s: string)
    ensures Keep(Squeeze(s), IsSpace) == Keep(s, IsSpace)
  {
    var spaced := CollapseRuns(s, IsSpace);
    CollapseRunsNoOp(spaced, IsLineBreakOrTab);
    CollapseRunsKeepsText(s, IsSpace);
    StripKeepsText(spaced);
  }

  lemma StripOfSpaced(s: string, spaced: string, r: string)
    requires forall i | 0 <= i < |spaced| :: spaced[i] == ' ' || (!IsSpace(spaced[i]) && spaced[i] in s)
    requires forall i | 0 <= i < |spaced| - 1 :: !(spaced[i] == ' ' && spaced[i + 1] == ' ')
    requires r == Strip(spaced)
    ensures Normalized(r)
    ensures forall i | 0 <= i < |r| :: r[i] == ' ' || r[i] in s
  {
    var k :| OccursAt(spaced, r, k);
    forall i | 0 <= i < |r|
      ensures r[i] == spaced[k + i]
    {
      assert r == spaced[k..k + |r|];
    }
    forall i, j | 0 <= i < j < |r| && j == i + 1
      ensures !(r[i] == ' ' && r[j] == ' ')
    {
      assert r[i] == spaced[k + i] && r[j] == spaced[k + i + 1];
    }
  }

  /** The whitespace passes are idempotent: text already in normal form is
      returned unchanged. */
  lemma SqueezeIdempotent(s: string)
    requires Normalized(s)
    ensures Squeeze(s) == s
  {
    NormalizedNoSpaceRuns(s);
    CollapseRunsNoOp(s, IsLineBreakOrTab);
    StripNoOp(s);
  }

  /** In normal form, the `\s+` pass only rewrites single spaces to themselves. */
  lemma {:induction false} NormalizedNoSpaceRuns(s: string)
    requires forall i | 0 <= i < |s| :: IsSpace(s[i]) ==> s[i] == ' '
    requires NoDoubleSpace(s)
    ensures CollapseRuns(s, IsSpace) == s
    decreases |s|
  {
    if |s| > 0 {
      if IsSpace(s[0]) {
        assert SkipWhile(s, IsSpace) == s[1..] by {
          assert |s| == 1 || !IsSpace(s[1]);
          assert s[1..] == SkipWhile(s[1..], IsSpace);
        }
      }
      NormalizedNoSpaceRuns(s[1..]);
    }
  }

  lemma StripNoOp(s: string)
    requires |s| > 0 ==> !IsSpace(s[0]) && !IsSpace(s[|s| - 1])
    ensures Strip(s) == s
  {
  }

  /** `_limpar_texto_profundo`: empty input gives the empty string; otherwise
      remove control characters, replace the PDF artefacts by spaces, fold
      case and accents, and squeeze the whitespace. */
  function Clean(o: Oracles, raw: string): (r: string)
    ensures |raw| == 0 ==> r == ""
    ensures |r| > 0 ==> r[0] != ' ' && r[|r| - 1] != ' '
  {
    if |raw| == 0 then ""
    else Squeeze(o.fold(ReplacePdfArtifacts(RemoveControls(raw))))
  }

  /** The cleaned text has only plain spaces for whitespace, never two in a
      row, and none at either end. */
  lemma CleanNormalized(o: Oracles, raw: string)
    ensures Normalized(Clean(o, raw))
  {
  }

  /** When the Unicode fold strips accents, the cleaned text has none. */
  lemma CleanStripsAccents(o: Oracles, raw: string)
    requires FoldStripsAccents(o)
    ensures NoAccents(Clean(o, raw))
  {
    if |raw| > 0 {
      var s := ReplacePdfArtifacts(RemoveControls(raw));
      FoldedNoAccents(o, s, Squeeze(o.fold(s)));
    }
  }

  /** When the fold leaves no ASCII capital, the cleaned text has none. */
  lemma CleanHasNoCapitals(o: Oracles, raw: string)
    requires FoldLeavesNoCapitals(o)
    ensures NoCapitals(Clean(o, raw))
  {
    if |raw| > 0 {
      var s := o.fold(ReplacePdfArtifacts(RemoveControls(raw)));
      NoCapitalsKept(s, Squeeze(s));
    }
  }

  lemma NoCapitalsKept(s: string, r: string)
    requires NoCapitals(s)
    requires forall i | 0 <= i < |r| :: r[i] == ' ' || r[i] in s
    ensures NoCapitals(r)
  {
    forall i | 0 <= i < |r|
      ensures !('A' <= r[i] <= 'Z')
    {
      if r[i] != ' ' {
        var j :| 0 <= j < |s| && s[j] == r[i];
      }
    }
  }

  lemma FoldedNoAccents(o: Oracles, s: string, r: string)
    requires forall i | 0 <= i < |r| :: r[i] == ' ' || r[i] in o.fold(s)
    ensures FoldStripsAccents(o) ==> NoAccents(r)
  {
    if FoldStripsAccents(o) {
      NoAccentsKept(o.fold(s), r);
    }
  }

  /** Squeezing whitespace only writes spaces and characters of its input. */
  lemma NoAccentsKept(s: string, r: string)
    requires NoAccents(s)
    requires forall i | 0 <= i < |r| :: r[i] == ' ' || r[i] in s
    ensures NoAccents(r)
  {
    forall i | 0 <= i < |r|
      ensures !IsAccented(r[i])
    {
      if r[i] != ' ' {
        var j :| 0 <= j < |s| && s[j] == r[i];
      }
    }
  }
}
