/** The parts of the Python runtime the engine calls but that are not modelled
    here: the regular-expression engine, Unicode case mapping and decomposition,
    and `difflib.SequenceMatcher`. Each is an uninterpreted function; what is
    known about it is stated as a separate predicate, required only by the
    lemmas that need it. */
module Oracles {
  import opened Wrappers

  /** A regular expression: its source text and whether `re.IGNORECASE` is
      passed with it. */
  datatype Regex = Regex(source: string, ignoreCase: bool)

  /** One regex match: its span in the searched text and the text of its
      capture groups 1, 2, ... (every group in the patterns used is
      mandatory, so none is missing). */
  datatype Match = Match(start: nat, end: nat, groups: seq<string>)

  datatype Oracles = Oracles(
    /** `re.finditer(p, t)`: the non-overlapping matches, left to right. */
    findAll: (Regex, string) -> seq<Match>,
    /** `str.lower`, then NFKD decomposition, then dropping combining marks. */
    fold: string -> string,
    /** `str.lower`. */
    lower: string -> string,
    /** `SequenceMatcher(None, a, b).ratio()`. */
    ratio: (string, string) -> real)

  /** Python slicing `s[a:b]` for non-negative bounds: both bounds are clamped
      to the string and an empty slice results when they cross. */
  function PySlice(s: string, a: nat, b: nat): (r: string)
    ensures |r| <= |s|
    ensures a <= b <= |s| ==> r == s[a..b]
  {
    var lo := if a <= |s| then a else |s|;
    var hi := if b <= |s| then b else |s|;
    if lo <= hi then s[lo..hi] else []
  }

  /** `match.group(0)`. */
  function Whole(m: Match, t: string): string {
    PySlice(t, m.start, m.end)
  }

  /** `re.search(p, t)`: the leftmost match, which is the first one
      `re.finditer` yields. */
  function Search(o: Oracles, p: Regex, t: string): (r: Option<Match>)
    ensures r.Some? <==> |o.findAll(p, t)| > 0
    ensures r.Some? ==> r.value == o.findAll(p, t)[0]
  {
    var ms := o.findAll(p, t);
    if |ms| == 0 then None else Some(ms[0])
  }

  /** Every match lies inside the searched text. */
  ghost predicate SpansInBounds(o: Oracles) {
    forall p, t, i | 0 <= i < |o.findAll(p, t)| ::
      o.findAll(p, t)[i].start <= o.findAll(p, t)[i].end <= |t|
  }

  /** The precomposed accented letters of Portuguese. NFKD splits each into a
      base letter and combining marks, so none survives the fold. */
  predicate IsAccented(c: char) {
    c in {
    'á', 'à', 'â', 'ã', 'ä', 'é', 'è', 'ê', 'ë', 'í', 'ì', 'î', 'ï', 'ó', 'ò', 'ô', 'õ', 'ö', 'ú', 'ù', 'û', 'ü', 'ç', 'ñ',
    'Á', 'À', 'Â', 'Ã', 'Ä', 'É', 'È', 'Ê', 'Ë', 'Í', 'Ì', 'Î', 'Ï', 'Ó', 'Ò', 'Ô', 'Õ', 'Ö', 'Ú', 'Ù', 'Û', 'Ü', 'Ç', 'Ñ'}
  }

  predicate NoAccents(s: string) {
    forall i | 0 <= i < |s| :: !IsAccented(s[i])
  }

  /** After NFKD and dropping combining marks, no precomposed accented letter
      is left. */
  ghost predicate FoldStripsAccents(o: Oracles) {
    forall t :: NoAccents(o.fold(t))
  }

  /** No ASCII capital letter. */
  predicate NoCapitals(s: string) {
    forall i | 0 <= i < |s| :: !('A' <= s[i] <= 'Z')
  }

  /** The fold leaves no ASCII capital. This holds of ordinary text, whose
      capitals `str.lower` removes; it fails on compatibility characters such
      as the double-struck capitals, which lower-casing keeps and NFKD then
      turns into ASCII capitals. */
  ghost predicate FoldLeavesNoCapitals(o: Oracles) {
    forall t :: NoCapitals(o.fold(t))
  }

  /** Printable ASCII with no capital letter. */
  predicate PlainLower(s: string) {
    forall i | 0 <= i < |s| :: ' ' <= s[i] <= '~' && !('A' <= s[i] <= 'Z')
  }

  /** `str.lower` leaves printable ASCII without capitals alone. */
  ghost predicate LowerKeepsPlain(o: Oracles) {
    forall s | PlainLower(s) :: o.lower(s) == s
  }

  /** `ratio()` is `2*M/T`, a value between 0 and 1. */
  ghost predicate RatioInUnit(o: Oracles) {
    forall a, b :: 0.0 <= o.ratio(a, b) <= 1.0
  }

  /** `str.lower` maps no letter without an accent to one with an accent. */
  ghost predicate LowerAddsNoAccents(o: Oracles) {
    forall s | NoAccents(s) :: NoAccents(o.lower(s))
  }

  /** A slice of text without accents has none. */
  lemma SliceKeepsNoAccents(s: string, a: nat, b: nat)
    requires NoAccents(s)
    ensures NoAccents(PySlice(s, a, b))
  {
    var lo := if a <= |s| then a else |s|;
    var hi := if b <= |s| then b else |s|;
    if lo <= hi {
      assert forall i | 0 <= i < hi - lo :: s[lo..hi][i] == s[lo + i];
    }
  }
}
