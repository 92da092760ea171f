/** The document classifier (`_identificar_tipo_documento`, app.py:1103-1147):
    every catalog type is scored on the cleaned text by its marker patterns
    (three points a match) and by its own vocabulary (one point an
    occurrence); the first type with the highest score wins when that score
    is at least 5, and a keyword fallback decides otherwise. */
module Classifier {
  import opened Text
  import opened Oracles
  import opened Tagging
  import opened Catalog

  /** Python's `s.count(t)`, including the empty `t`, which occurs
      `len(s) + 1` times. */
  function CountTerm(s: string, t: string): nat {
    if |t| == 0 then |s| + 1 else Count(s, t)
  }

  /** `sum(s.count(t) for t in terms)`. */
  function SumCounts(s: string, terms: seq<string>): nat {
    if |terms| == 0 then 0 else CountTerm(s, terms[0]) + SumCounts(s, terms[1..])
  }

  /** `sum(len(re.findall(m, s, re.IGNORECASE)) * 3 for m in markers)`. */
  function MarkerScore(o: Oracles, s: string, markers: seq<string>): nat {
    if |markers| == 0 then 0
    else 3 * |o.findAll(Regex(markers[0], true), s)| + MarkerScore(o, s, markers[1..])
  }

  /** The vocabulary scored for each type; the service contract has none. */
  function Vocabulary(t: DocType): seq<string> {
    match t
    case Lease => ["aluguel", "locação", "imóvel", "inquilino", "proprietário", "fiador", "caução"]
    case Employment => ["salário", "empregado", "empregador", "carteira", "FGTS", "férias", "CLT", "horas extras"]
    case Invoice => ["NFe", "chave acesso", "ICMS", "protocolo", "emitente", "destinatário", "CFOP"]
    case _ => []
  }

  function Score(o: Oracles, tab: Table, s: string, t: DocType): nat
    requires t != Unknown
  {
    MarkerScore(o, s, Entry(tab, t).markers) + SumCounts(s, Vocabulary(t))
  }

  /** The scores of the catalog types, in catalog order. */
  function Scores(o: Oracles, tab: Table, s: string): (r: seq<nat>)
    ensures |r| == |CatalogOrder|
    ensures forall i | 0 <= i < |r| :: r[i] == Score(o, tab, s, CatalogOrder[i])
  {
    [Score(o, tab, s, Lease), Score(o, tab, s, Employment), Score(o, tab, s, Invoice), Score(o, tab, s, Service)]
  }

  /** `max(range(len(s)), key=s.__getitem__)`: the first position of the
      largest value. */
  function FirstArgMax(s: seq<nat>): (i: nat)
    requires |s| > 0
    ensures i < |s|
    ensures forall j | 0 <= j < |s| :: s[j] <= s[i]
    ensures forall j | 0 <= j < i :: s[j] < s[i]
  {
    if |s| == 1 then 0
    else
      var k := FirstArgMax(s[..|s| - 1]);
      if s[|s| - 1] > s[k] then |s| - 1 else k
  }

  /** The keyword fallback, used when no type scores 5. */
  function Fallback(s: string): DocType {
    if AnyIn(s, ["nota fiscal", "NFe", "chave acesso"]) then Invoice
    else if Contains(s, "contrato") then
      if AnyIn(s, ["locação", "aluguel", "inquilino"]) then Lease
      else if AnyIn(s, ["trabalho", "emprego", "empregado"]) then Employment
      else if AnyIn(s, ["prestação", "serviços", "honorários"]) then Service
      else Unknown
    else Unknown
  }

  /** `_identificar_tipo_documento`. The result is the first type of highest
      score when that score reaches 5, and the fallback's answer otherwise. */
  function Classify(o: Oracles, tab: Table, s: string): (r: DocType)
    ensures var sc := Scores(o, tab, s);
      (exists i | 0 <= i < |sc| :: sc[i] >= 5) ==>
        exists i | 0 <= i < |sc| :: r == CatalogOrder[i] && sc[i] >= 5 &&
          (forall j | 0 <= j < |sc| :: sc[j] <= sc[i]) && (forall j | 0 <= j < i :: sc[j] < sc[i])
    ensures var sc := Scores(o, tab, s);
      (forall i | 0 <= i < |sc| :: sc[i] < 5) ==> r == Fallback(s)
  {
    var sc := Scores(o, tab, s);
    var best := FirstArgMax(sc);
    if sc[best] >= 5 then CatalogOrder[best] else Fallback(s)
  }

  // ---------------------------------------------------------------------------
  // Accented words in cleaned text
  // ---------------------------------------------------------------------------

  /** A word holding an accented letter is not counted in text without
      accents. */
  lemma AccentedTermAbsent(s: string, term: string, k: nat)
    requires NoAccents(s) && k < |term| && IsAccented(term[k])
    ensures !Contains(s, term) && CountTerm(s, term) == 0
  {
    MissingCharNotContained(s, term, k);
    CountZeroIffAbsent(s, term);
  }

  /** Without accents, the service fallback is unreachable: its three words
      are "prestação", "serviços" and "honorários". */
  lemma FallbackNeverService(s: string)
    requires NoAccents(s)
    ensures Fallback(s) != Service
  {
    AccentedTermAbsent(s, "prestação", 6);
    AccentedTermAbsent(s, "serviços", 5);
    AccentedTermAbsent(s, "honorários", 5);
    AnyInThree(s, "prestação", "serviços", "honorários");
  }

  /** Without accents, the lease vocabulary scores only through "aluguel",
      "inquilino" and "fiador". */
  lemma LeaseVocabularyWithoutAccents(s: string)
    requires NoAccents(s)
    ensures SumCounts(s, Vocabulary(Lease)) ==
              CountTerm(s, "aluguel") + CountTerm(s, "inquilino") + CountTerm(s, "fiador")
  {
    AccentedTermAbsent(s, "locação", 4);
    AccentedTermAbsent(s, "imóvel", 2);
    AccentedTermAbsent(s, "proprietário", 8);
    AccentedTermAbsent(s, "caução", 3);
    var v := Vocabulary(Lease);
    assert SumCounts(s, v[6..]) == 0 by {
      assert v[6..] == ["caução"] && v[6..][1..] == [];
    }
    assert SumCounts(s, v[5..]) == CountTerm(s, "fiador") by { assert v[5..][1..] == v[6..]; }
    assert SumCounts(s, v[4..]) == CountTerm(s, "fiador") by { assert v[4..][1..] == v[5..]; }
    assert SumCounts(s, v[3..]) == CountTerm(s, "inquilino") + CountTerm(s, "fiador") by {
      assert v[3..][1..] == v[4..];
    }
    assert SumCounts(s, v[2..]) == SumCounts(s, v[3..]) by { assert v[2..][1..] == v[3..]; }
    assert SumCounts(s, v[1..]) == SumCounts(s, v[2..]) by { assert v[1..][1..] == v[2..]; }
  }

  /** A word holding an ASCII capital is not counted in text without
      capitals. */
  lemma CapitalTermAbsent(s: string, term: string, k: nat)
    requires NoCapitals(s) && k < |term| && 'A' <= term[k] <= 'Z'
    ensures !Contains(s, term) && CountTerm(s, term) == 0
  {
    MissingCharNotContained(s, term, k);
    CountZeroIffAbsent(s, term);
  }

  lemma SumCountsFrom(s: string, terms: seq<string>, i: nat)
    requires i < |terms|
    ensures SumCounts(s, terms[i..]) == CountTerm(s, terms[i]) + SumCounts(s, terms[i + 1..])
  {
    assert terms[i..][1..] == terms[i + 1..];
  }

  /** In text without accents or capitals, the employment vocabulary scores
      only through "empregado", "empregador", "carteira" and "horas extras":
      "salário", "FGTS", "férias" and "CLT" never occur. */
  lemma EmploymentVocabularyOnCleanText(s: string)
    requires NoAccents(s) && NoCapitals(s)
    ensures SumCounts(s, Vocabulary(Employment)) ==
      CountTerm(s, "empregado") + CountTerm(s, "empregador") + CountTerm(s, "carteira") + CountTerm(s, "horas extras")
  {
    AccentedTermAbsent(s, "salário", 3);
    CapitalTermAbsent(s, "FGTS", 0);
    AccentedTermAbsent(s, "férias", 1);
    CapitalTermAbsent(s, "CLT", 0);
    var v := Vocabulary(Employment);
    SumCountsFrom(s, v, 7);
    SumCountsFrom(s, v, 6);
    SumCountsFrom(s, v, 5);
    SumCountsFrom(s, v, 4);
    SumCountsFrom(s, v, 3);
    SumCountsFrom(s, v, 2);
    SumCountsFrom(s, v, 1);
    SumCountsFrom(s, v, 0);
    assert v[0..] == v && v[8..] == [];
  }

  /** In text without accents or capitals, the invoice vocabulary scores only
      through "chave acesso", "protocolo" and "emitente": "NFe", "ICMS",
      "destinatário" and "CFOP" never occur. */
  lemma InvoiceVocabularyOnCleanText(s: string)
    requires NoAccents(s) && NoCapitals(s)
    ensures SumCounts(s, Vocabulary(Invoice)) ==
      CountTerm(s, "chave acesso") + CountTerm(s, "protocolo") + CountTerm(s, "emitente")
  {
    CapitalTermAbsent(s, "NFe", 0);
    CapitalTermAbsent(s, "ICMS", 0);
    AccentedTermAbsent(s, "destinatário", 8);
    CapitalTermAbsent(s, "CFOP", 0);
    var v := Vocabulary(Invoice);
    SumCountsFrom(s, v, 6);
    SumCountsFrom(s, v, 5);
    SumCountsFrom(s, v, 4);
    SumCountsFrom(s, v, 3);
    SumCountsFrom(s, v, 2);
    SumCountsFrom(s, v, 1);
    SumCountsFrom(s, v, 0);
    assert v[0..] == v && v[7..] == [];
  }

  /** In text without accents or capitals, the fallback reduces to its plain
      lower-case words: "nota fiscal" or "chave acesso" for an invoice; then,
      in a text that says "contrato", "aluguel" or "inquilino" for a lease and
      "trabalho", "emprego" or "empregado" for an employment contract. */
  lemma FallbackOnCleanText(s: string)
    requires NoAccents(s) && NoCapitals(s)
    ensures Fallback(s) ==
      if Contains(s, "nota fiscal") || Contains(s, "chave acesso") then Invoice
      else if Contains(s, "contrato") then
        if Contains(s, "aluguel") || Contains(s, "inquilino") then Lease
        else if Contains(s, "trabalho") || Contains(s, "emprego") || Contains(s, "empregado") then Employment
        else Unknown
      else Unknown
  {
    CapitalTermAbsent(s, "NFe", 0);
    AccentedTermAbsent(s, "locação", 4);
    AnyInThree(s, "nota fiscal", "NFe", "chave acesso");
    AnyInThree(s, "locação", "aluguel", "inquilino");
    AnyInThree(s, "trabalho", "emprego", "empregado");
    FallbackNeverService(s);
  }

  /** Whatever the text, the service type scores by its markers alone. */
  lemma ServiceScoresByMarkers(o: Oracles, tab: Table, s: string)
    ensures Score(o, tab, s, Service) == MarkerScore(o, s, tab.service.markers)
  {
  }
}
