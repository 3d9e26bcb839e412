/** The logic of the React component in src/components/AnalysisDisplay.tsx: the `canRun`
    threshold, the text "Copiar Resultado" puts on the clipboard, the rule for the result
    cards, and the state updates of `run` and `clearAll`, with the browser cache as one
    optional field. */
module Display {
  import opened Wrappers
  import opened JsText

  /** One entry of `realisticResults`; an absent string is "". */
  datatype ResultItem = ResultItem(score: string, labelText: string, why: string)

  /** The analysis the API returns. The copy text reads `tactical || ''`, `factors || []`
      and `realisticResults || []`, so an absent field is the empty value here. */
  datatype Analysis = Analysis(tactical: string, factors: seq<string>, results: seq<ResultItem>)

  /** The header literals of `copyResultText`, code point for code point (they are
      mis-decoded UTF-8 in the source and are kept as written). */
  const TacticalHeader: string := "CENÃRIO TÃTICO DE HOJE"
  const FactorsHeader: string := "FATORES-CHAVE"
  const ResultsHeader: string := "RESULTADOS REALISTAS"
  /** The factor bullet `"â€¢ "` and the score/label separator `" â€” "`. */
  const BulletPrefix: string := "â€¢ "
  const ScoreSeparator: string := " â€” "
  /** What a card shows for an empty field: `'â€”'`. */
  const Placeholder: string := "â€”"
  const BaseLabel: string := "CENÃRIO BASE"
  const AltLabel: string := "CENÃRIO ALTERNATIVO"
  const RunErrorDefault: string := "Erro ao analisar"
  const MinInputLength: nat := 15

  /** `input.trim().length >= 15`, the length counted in UTF-16 code units. */
  predicate CanRun(input: string)
    ensures |Trim(input)| >= MinInputLength ==> CanRun(input)
    ensures CanRun(input) ==> 2 * |Trim(input)| >= MinInputLength
  {
    Utf16Length(Trim(input)) >= MinInputLength
  }

  /** Surrounding whitespace never decides `canRun`; an input of only whitespace cannot
      run, and for text inside the Basic Multilingual Plane the bound is on characters. */
  lemma CanRunOnTrimmed(input: string)
    ensures CanRun(input) <==> CanRun(Trim(input))
    ensures AllWhitespace(input) ==> !CanRun(input)
    ensures (forall i :: 0 <= i < |input| ==> input[i] as int <= 0xFFFF) ==>
              (CanRun(input) <==> |Trim(input)| >= MinInputLength)
  {
    TrimIdempotent(input);
    var t := Trim(input);
    if forall i :: 0 <= i < |input| ==> input[i] as int <= 0xFFFF {
      forall i | 0 <= i < |t| ensures t[i] as int <= 0xFFFF {
        TrimIsSlice(input, i);
      }
    }
  }

  /** Every character of `Trim(s)` is a character of `s`. */
  lemma TrimIsSlice(s: string, i: nat)
    requires i < |Trim(s)|
    ensures exists j :: 0 <= j < |s| && Trim(s)[i] == s[j]
  {
    var a := TrimStart(s);
    var t := TrimEnd(a);
    assert Trim(s) == t;
    assert t[i] == a[i];
    assert a[i] == s[|s| - |a| + i];
  }

  /** One bullet line per factor, in order. */
  function Bullets(factors: seq<string>): (r: seq<string>)
    ensures |r| == |factors|
    ensures forall i :: 0 <= i < |factors| ==> r[i] == BulletPrefix + factors[i]
  {
    if factors == [] then []
    else Bullets(factors[..|factors| - 1]) + [BulletPrefix + factors[|factors| - 1]]
  }

  /** The three lines of one result: score and label, the reason, a blank line. */
  function ResultTriple(r: ResultItem): seq<string> {
    [r.score + ScoreSeparator + r.labelText, r.why, ""]
  }

  function ResultLines(results: seq<ResultItem>): (r: seq<string>)
    ensures |r| == 3 * |results|
    ensures forall j :: 0 <= j < |results| ==>
              r[3 * j] == results[j].score + ScoreSeparator + results[j].labelText
              && r[3 * j + 1] == results[j].why && r[3 * j + 2] == ""
  {
    if results == [] then []
    else ResultLines(results[..|results| - 1]) + ResultTriple(results[|results| - 1])
  }

  /** The lines `copyResultText` collects before joining them. */
  function CopyLines(a: Analysis): (r: seq<string>)
    ensures |r| == 6 + |a.factors| + 3 * |a.results|
    ensures r[..4] == [TacticalHeader, a.tactical, "", FactorsHeader]
  {
    [TacticalHeader, a.tactical, "", FactorsHeader] + Bullets(a.factors) + ["", ResultsHeader]
    + ResultLines(a.results)
  }

  /** What is written to the clipboard. */
  function CopyText(a: Analysis): (r: string)
    ensures IsTrimmed(r)
    ensures |r| <= |Join(CopyLines(a), "\n")|
  {
    Trim(Join(CopyLines(a), "\n"))
  }

  /** The copied lines: the four head lines, one bullet per factor, a blank line and the
      results header, then three lines per result. */
  lemma CopyLinesHead(a: Analysis)
    ensures var lines := CopyLines(a);
            var nf := |a.factors|;
            |lines| == 6 + nf + 3 * |a.results|
            && lines[..4] == [TacticalHeader, a.tactical, "", FactorsHeader]
            && lines[4 + nf] == "" && lines[5 + nf] == ResultsHeader
  {
  }

  /** The factors appear as bullets, in order. */
  lemma CopyLinesBullets(a: Analysis, i: nat)
    requires i < |a.factors|
    ensures |CopyLines(a)| > 4 + i && CopyLines(a)[4 + i] == BulletPrefix + a.factors[i]
  {
  }

  /** Result `j` is the score and label, then the reason, then a blank line. */
  lemma CopyLinesResult(a: Analysis, j: nat)
    requires j < |a.results|
    ensures var lines := CopyLines(a);
            var k := 6 + |a.factors| + 3 * j;
            |lines| > k + 2
            && lines[k] == a.results[j].score + ScoreSeparator + a.results[j].labelText
            && lines[k + 1] == a.results[j].why
            && lines[k + 2] == ""
  {
    var head := [TacticalHeader, a.tactical, "", FactorsHeader] + Bullets(a.factors) + ["", ResultsHeader];
    var k := 6 + |a.factors| + 3 * j;
    assert CopyLines(a) == head + ResultLines(a.results);
    assert CopyLines(a)[k] == ResultLines(a.results)[3 * j];
    assert CopyLines(a)[k + 1] == ResultLines(a.results)[3 * j + 1];
    assert CopyLines(a)[k + 2] == ResultLines(a.results)[3 * j + 2];
  }

  lemma JoinCons(x: string, rest: seq<string>, sep: string)
    requires rest != []
    ensures Join([x] + rest, sep) == x + sep + Join(rest, sep)
  {
    assert ([x] + rest)[1..] == rest;
  }

  /** Joining four leading lines in front of a non-empty rest. */
  lemma JoinFour(h: string, t: string, b: string, f: string, rest: seq<string>, sep: string)
    requires rest != []
    ensures Join([h, t, b, f] + rest, sep) == h + sep + t + sep + b + sep + f + (sep + Join(rest, sep))
  {
    assert [h, t, b, f] + rest == [h] + ([t] + ([b] + ([f] + rest)));
    JoinCons(f, rest, sep);
    JoinCons(b, [f] + rest, sep);
    JoinCons(t, [b] + ([f] + rest), sep);
    JoinCons(h, [t] + ([b] + ([f] + rest)), sep);
  }

  /** Trimming only touches the ends: the copied text begins with the tactical header,
      the tactical text, a blank line and the factors header, exactly as collected;
      and it has no whitespace at either end. */
  lemma CopyTextBegins(a: Analysis)
    ensures var head := TacticalHeader + "\n" + a.tactical + "\n" + "" + "\n" + FactorsHeader;
            var tail := Bullets(a.factors) + ["", ResultsHeader] + ResultLines(a.results);
            CopyText(a) == head + TrimEnd("\n" + Join(tail, "\n"))
    ensures IsTrimmed(CopyText(a))
  {
    var tail := Bullets(a.factors) + ["", ResultsHeader] + ResultLines(a.results);
    assert CopyLines(a) == [TacticalHeader, a.tactical, "", FactorsHeader] + tail;
    JoinFour(TacticalHeader, a.tactical, "", FactorsHeader, tail, "\n");
    var head := TacticalHeader + "\n" + a.tactical + "\n" + "" + "\n" + FactorsHeader;
    assert head[0] == 'C';
    assert head[|head| - 1] == 'E';
    TrimKeepsHead(head, "\n" + Join(tail, "\n"));
  }

  /** What one result card shows. */
  datatype Card = Card(score: string, labelText: string, why: string)

  function OrPlaceholder(s: string): (r: string)
    ensures r != "" && (s != "" ==> r == s)
    ensures s == "" ==> r == Placeholder
  {
    if s != "" then s else Placeholder
  }

  /** `r.label || (idx === 0 ? 'CENÃRIO BASE' : 'CENÃRIO ALTERNATIVO')`. */
  function LabelAt(labelText: string, idx: nat): (r: string)
    ensures r != ""
    ensures labelText != "" ==> r == labelText
    ensures labelText == "" && idx == 0 ==> r == BaseLabel
    ensures labelText == "" && idx > 0 ==> r == AltLabel
  {
    if labelText != "" then labelText else if idx == 0 then BaseLabel else AltLabel
  }

  /** `(realisticResults || []).slice(0, 2).map(...)`: a card for each of the first two
      results; no field of a card is ever empty. */
  function Cards(results: seq<ResultItem>): (r: seq<Card>)
    ensures |r| == if |results| < 2 then |results| else 2
    ensures forall i :: 0 <= i < |r| ==> r[i].score != "" && r[i].labelText != "" && r[i].why != ""
    ensures forall i :: 0 <= i < |r| && results[i].labelText != "" ==> r[i].labelText == results[i].labelText
    ensures |r| > 0 && results[0].labelText == "" ==> r[0].labelText == BaseLabel
    ensures |r| > 1 && results[1].labelText == "" ==> r[1].labelText == AltLabel
    ensures forall i :: 0 <= i < |r| && results[i].score != "" ==> r[i].score == results[i].score
    ensures forall i :: 0 <= i < |r| && results[i].why != "" ==> r[i].why == results[i].why
    ensures forall i :: 0 <= i < |r| && results[i].score == "" ==> r[i].score == Placeholder
    ensures forall i :: 0 <= i < |r| && results[i].why == "" ==> r[i].why == Placeholder
  {
    var shown := if |results| < 2 then results else results[..2];
    seq(|shown|, i requires 0 <= i < |shown| =>
      Card(OrPlaceholder(shown[i].score), LabelAt(shown[i].labelText, i), OrPlaceholder(shown[i].why)))
  }

  /** Results after the second never reach the screen. */
  lemma LaterResultsHidden(results: seq<ResultItem>, more: seq<ResultItem>)
    requires |results| >= 2
    ensures Cards(results + more) == Cards(results)
  {
    assert (results + more)[..2] == results[..2];
  }

  /** The component's state: the text box, the analysis shown, the loading flag, the
      error line, and the cached analysis (`localStorage[LS_KEY]`). */
  class AnalysisDisplay {
    var input: string
    var analysis: Option<Analysis>
    var loading: bool
    var err: string
    var cache: Option<Analysis>

    /** The first render followed by the mount effect: the cached analysis, when there
        is one that parses, is shown. */
    constructor(saved: Option<Analysis>)
      ensures input == "" && analysis == saved && !loading && err == "" && cache == saved
    {
      input := "";
      analysis := saved;
      loading := false;
      err := "";
      cache := saved;
    }

    /** `setInput` from the text box. */
    method SetInput(text: string)
      modifies this
      ensures input == text
      ensures analysis == old(analysis) && loading == old(loading) && err == old(err) && cache == old(cache)
    {
      input := text;
    }

    /** `run()`, with `analyzeToday` as `api`: its result, or the message of what it
        threw ("" when the error has none). */
    method Run(api: string -> Result<Analysis, string>)
      modifies this
      ensures input == old(input) && !loading
      ensures api(old(input)).Success? ==>
                analysis == Some(api(old(input)).value) && cache == analysis && err == ""
      ensures api(old(input)).Failure? ==>
                analysis == old(analysis) && cache == old(cache)
                && err == (if api(old(input)).error != "" then api(old(input)).error else RunErrorDefault)
    {
      err := "";
      loading := true;
      var res := api(input);
      match res {
        case Success(a) =>
          analysis := Some(a);
          cache := Some(a);
        case Failure(message) =>
          err := if message != "" then message else RunErrorDefault;
      }
      loading := false;
    }

    /** `clearAll()`: empties the box, the analysis, the error and the cache. */
    method ClearAll()
      modifies this
      ensures input == "" && analysis == None && err == "" && cache == None
      ensures loading == old(loading)
      ensures !CanRun(input)
    {
      input := "";
      analysis := None;
      err := "";
      cache := None;
    }

    /** `copyResultText()`: nothing without an analysis, otherwise the collected lines
        joined by newlines and trimmed. */
    method CopyResultText() returns (clip: Option<string>)
      ensures analysis.None? ==> clip.None?
      ensures analysis.Some? ==> clip == Some(CopyText(analysis.value))
    {
      if analysis.None? {
        return None;
      }
      var lines := CollectLines(analysis.value);
      clip := Some(Trim(Join(lines, "\n")));
    }
  }

  /** The `lines.push` sequence of `copyResultText`. */
  method CollectLines(a: Analysis) returns (lines: seq<string>)
    ensures lines == CopyLines(a)
  {
    lines := [];
    lines := lines + [TacticalHeader];
    lines := lines + [a.tactical];
    lines := lines + [""];
    lines := lines + [FactorsHeader];
    lines := PushBullets(lines, a.factors);
    lines := lines + [""];
    lines := lines + [ResultsHeader];
    lines := PushResults(lines, a.results);
  }

  /** `for (const f of factors) lines.push(`â€¢ ${f}`)`. */
  method PushBullets(start: seq<string>, factors: seq<string>) returns (lines: seq<string>)
    ensures lines == start + Bullets(factors)
  {
    lines := start;
    for i := 0 to |factors|
      invariant lines == start + Bullets(factors[..i])
    {
      assert factors[..i + 1][..i] == factors[..i];
      lines := lines + [BulletPrefix + factors[i]];
    }
    assert factors[..|factors|] == factors;
  }

  /** The loop over `realisticResults`: three pushes per result. */
  method PushResults(start: seq<string>, results: seq<ResultItem>) returns (lines: seq<string>)
    ensures lines == start + ResultLines(results)
  {
    lines := start;
    for j := 0 to |results|
      invariant lines == start + ResultLines(results[..j])
    {
      var r := results[j];
      assert results[..j + 1][..j] == results[..j];
      assert ResultLines(results[..j + 1]) == ResultLines(results[..j]) + ResultTriple(r);
      lines := lines + [r.score + ScoreSeparator + r.labelText];
      lines := lines + [r.why];
      lines := lines + [""];
    }
    assert results[..|results|] == results;
  }

  /** After `clearAll`, nothing is on screen and there is nothing to copy. */
  method ClearThenCopy(d: AnalysisDisplay) returns (clip: Option<string>)
    modifies d
    ensures clip.None? && d.analysis.None? && d.cache.None?
  {
    d.ClearAll();
    clip := d.CopyResultText();
  }
}
