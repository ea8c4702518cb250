/** The CSV export of the lead history: the cell escaping, the header line,
    one line of 21 cells per history entry, and a reader for the format the
    export is meant to produce, against which the export is checked. */
module Csv {
  import opened Wrappers
  import opened Types

  /** `str.replace(/"/g, '""')`: every double quote doubled. */
  function DoubleQuotes(s: string): (r: string)
    ensures |r| >= |s|
  {
    if s == [] then []
    else (if s[0] == '"' then "\"\"" else [s[0]]) + DoubleQuotes(s[1..])
  }

  /** A text without quotes is left as it is. */
  lemma {:induction false} DoubleQuotesPlain(s: string)
    requires forall i :: 0 <= i < |s| ==> s[i] != '"'
    ensures DoubleQuotes(s) == s
  {
    if s != [] {
      var t := s[1..];
      assert forall i :: 0 <= i < |t| ==> t[i] != '"' by {
        assert forall i :: 0 <= i < |t| ==> t[i] == s[i + 1];
      }
      DoubleQuotesPlain(t);
      assert s == [s[0]] + t;
    }
  }

  /** `escapeCsv`: the text between double quotes, its own quotes doubled. */
  function EscapeCsv(s: string): (r: string)
    ensures |r| >= |s| + 2 && r[0] == '"' && r[|r| - 1] == '"'
  {
    "\"" + DoubleQuotes(s) + "\""
  }

  /** `parts.join(sep)`. */
  function JoinWith(parts: seq<string>, sep: char): string {
    if parts == [] then []
    else if |parts| == 1 then parts[0]
    else parts[0] + [sep] + JoinWith(parts[1..], sep)
  }

  /** A cell that may be written without quotes: no separator, no line
      break and no quote in it. */
  predicate PlainCell(s: string) {
    forall i :: 0 <= i < |s| ==> s[i] != ',' && s[i] != '\n' && s[i] != '"'
  }

  /** The column titles of the eleven answers. */
  const AnswerTitles: seq<string> := [
    "Nombre", "Apellido", "Rol del contacto", "Industria", "Facturación anual",
    "Cantidad de colaboradores", "Presupuesto", "Claridad de la necesidad",
    "Detalle de la necesidad", "Origen del contacto", "Servicio de interés inicial"
  ]

  /** The column titles of the seven recommendation texts. */
  const RecommendationTitles: seq<string> := [
    "Justificación del Puntaje", "Prioridad", "Categoría de Servicio", "Servicio Recomendado",
    "Justificación del Servicio", "Próximos Pasos", "Acción Inmediata Sugerida"
  ]

  /** The export's 21 column titles, in order. */
  const Headers: seq<string> := ["ID", "Fecha"] + AnswerTitles + ["Puntaje Final"] + RecommendationTitles

  // ---------------------------------------------------------------------
  // A reader for comma-separated values with quoted cells (a quoted cell
  // may hold commas, line breaks and doubled quotes).
  // ---------------------------------------------------------------------

  /** Reads the body of a quoted cell, after its opening quote: the value
      and what follows the closing quote; `None` when the quote is never
      closed. */
  function ReadQuoted(s: string): (r: Option<(string, string)>)
    ensures r.Some? ==> |r.value.1| < |s|
  {
    if s == [] then None
    else if s[0] == '"' then
      if |s| > 1 && s[1] == '"' then
        match ReadQuoted(s[2..])
        case None => None
        case Some((v, rest)) => Some(("\"" + v, rest))
      else Some(("", s[1..]))
    else
      match ReadQuoted(s[1..])
      case None => None
      case Some((v, rest)) => Some(([s[0]] + v, rest))
  }

  /** Reads an unquoted cell: everything up to the next comma or line break. */
  function ReadBare(s: string): (r: (string, string))
    ensures |r.1| <= |s|
  {
    if s == [] || s[0] == ',' || s[0] == '\n' then ("", s)
    else
      var r := ReadBare(s[1..]);
      ([s[0]] + r.0, r.1)
  }

  /** Reads one cell, quoted or not. */
  function ReadCell(s: string): (r: Option<(string, string)>)
    ensures r.Some? ==> |r.value.1| <= |s|
  {
    if s != [] && s[0] == '"' then ReadQuoted(s[1..]) else Some(ReadBare(s))
  }

  /** Reads one record: cells separated by commas, ended by a line break
      (consumed) or by the end of the text. */
  function ReadCells(s: string): (r: Option<(seq<string>, string)>)
    ensures r.Some? ==> |r.value.1| <= |s| && (s != [] ==> |r.value.1| < |s|)
    decreases |s|
  {
    match ReadCell(s)
    case None => None
    case Some((v, rest)) =>
      if rest == [] then Some(([v], []))
      else if rest[0] == ',' then
        match ReadCells(rest[1..])
        case None => None
        case Some((vs, after)) => Some(([v] + vs, after))
      else if rest[0] == '\n' then Some(([v], rest[1..]))
      else None
  }

  /** Reads a whole text as a list of records. */
  function ParseCsv(s: string): (r: Option<seq<seq<string>>>)
    decreases |s|
  {
    if s == [] then Some([])
    else
      match ReadCells(s)
      case None => None
      case Some((cells, rest)) =>
        match ParseCsv(rest)
        case None => None
        case Some(records) => Some([cells] + records)
  }

  /** `e` is a written cell that reads back as `v`: either `v` escaped, or
      `v` itself when it is plain. */
  predicate Encodes(e: string, v: string) {
    e == EscapeCsv(v) || (PlainCell(e) && e == v)
  }

  /** Cell by cell, `es` is written for the values `vs`. */
  predicate EncodesAll(es: seq<string>, vs: seq<string>) {
    |es| == |vs| && forall k :: 0 <= k < |es| ==> Encodes(es[k], vs[k])
  }

  /** Written cells side by side encode their values side by side. */
  lemma EncodesAllConcat(es1: seq<string>, vs1: seq<string>, es2: seq<string>, vs2: seq<string>)
    requires EncodesAll(es1, vs1) && EncodesAll(es2, vs2)
    ensures EncodesAll(es1 + es2, vs1 + vs2)
  {
    forall k | 0 <= k < |es1 + es2| ensures Encodes((es1 + es2)[k], (vs1 + vs2)[k]) {
      if k >= |es1| {
        assert (es1 + es2)[k] == es2[k - |es1|] && (vs1 + vs2)[k] == vs2[k - |es1|];
      }
    }
  }

  /** Reading a body that starts with a doubled quote yields a quote,
      followed by what the rest of the body reads as. */
  lemma ReadQuotedEscapedQuote(t: string, v: string, rest: string)
    requires ReadQuoted(t) == Some((v, rest))
    ensures ReadQuoted("\"\"" + t) == Some(("\"" + v, rest))
  {
    assert ("\"\"" + t)[2..] == t;
  }

  /** Reading a body that starts with a character other than a quote
      yields that character, followed by what the rest reads as. */
  lemma ReadQuotedOther(c: char, t: string, v: string, rest: string)
    requires c != '"'
    requires ReadQuoted(t) == Some((v, rest))
    ensures ReadQuoted([c] + t) == Some(([c] + v, rest))
  {
    assert ([c] + t)[1..] == t;
  }

  /** Reading a doubled-quote body back yields the original text, as long
      as what follows the closing quote is not itself a quote. */
  lemma {:induction false} ReadQuotedDoubled(v: string, rest: string)
    requires rest == [] || rest[0] != '"'
    ensures ReadQuoted(DoubleQuotes(v) + "\"" + rest) == Some((v, rest))
  {
    var s := DoubleQuotes(v) + "\"" + rest;
    if v == [] {
      assert s[1..] == rest by {
        assert s == "\"" + rest;
      }
    } else if v[0] == '"' {
      var t := DoubleQuotes(v[1..]) + "\"" + rest;
      assert ReadQuoted(s) == Some(("\"" + v[1..], rest)) by {
        ReadQuotedDoubled(v[1..], rest);
        assert s == "\"\"" + t;
        ReadQuotedEscapedQuote(t, v[1..], rest);
      }
      assert v == "\"" + v[1..];
    } else {
      var t := DoubleQuotes(v[1..]) + "\"" + rest;
      assert ReadQuoted(s) == Some(([v[0]] + v[1..], rest)) by {
        ReadQuotedDoubled(v[1..], rest);
        assert s == [v[0]] + t;
        ReadQuotedOther(v[0], t, v[1..], rest);
      }
      assert v == [v[0]] + v[1..];
    }
  }

  /** A plain cell reads back as itself, up to the delimiter that follows. */
  lemma {:induction false} ReadBarePlain(v: string, rest: string)
    requires PlainCell(v)
    requires rest == [] || rest[0] == ',' || rest[0] == '\n'
    ensures ReadBare(v + rest) == (v, rest)
  {
    if v == [] {
      assert v + rest == rest;
    } else {
      assert PlainCell(v[1..]) by {
        forall i | 0 <= i < |v| - 1 ensures v[1..][i] == v[i + 1] {
        }
      }
      ReadBarePlain(v[1..], rest);
      assert (v + rest)[0] == v[0] && v[0] != ',' && v[0] != '\n';
      assert (v + rest)[1..] == v[1..] + rest;
      assert v == [v[0]] + v[1..];
    }
  }

  /** Every written cell reads back as its value. */
  lemma ReadCellEncoded(e: string, v: string, rest: string)
    requires Encodes(e, v)
    requires rest == [] || rest[0] == ',' || rest[0] == '\n'
    ensures ReadCell(e + rest) == Some((v, rest))
  {
    if e == EscapeCsv(v) {
      ReadQuotedDoubled(v, rest);
      assert (e + rest)[1..] == DoubleQuotes(v) + "\"" + rest;
    } else {
      ReadBarePlain(v, rest);
    }
  }

  /** A line of written cells, followed by the end of the text or a line
      break, reads back as the list of their values. */
  lemma {:induction false} ReadCellsJoin(es: seq<string>, vs: seq<string>, tail: string)
    requires |es| >= 1 && EncodesAll(es, vs)
    requires tail == [] || tail[0] == '\n'
    ensures ReadCells(JoinWith(es, ',') + tail) == Some((vs, if tail == [] then [] else tail[1..]))
  {
    if |es| == 1 {
      assert JoinWith(es, ',') == es[0];
      ReadCellEncoded(es[0], vs[0], tail);
      assert vs == [vs[0]];
    } else {
      var after := JoinWith(es[1..], ',') + tail;
      assert ReadCell(JoinWith(es, ',') + tail) == Some((vs[0], [','] + after)) by {
        assert JoinWith(es, ',') + tail == es[0] + ([','] + after);
        ReadCellEncoded(es[0], vs[0], [','] + after);
      }
      assert ReadCells(after) == Some((vs[1..], if tail == [] then [] else tail[1..])) by {
        ReadCellsJoin(es[1..], vs[1..], tail);
      }
      assert ([','] + after)[1..] == after;
      assert vs == [vs[0]] + vs[1..];
    }
  }

  /** The lines of a table of written cells. */
  function Lines(ess: seq<seq<string>>): (r: seq<string>)
    ensures |r| == |ess|
  {
    seq(|ess|, k requires 0 <= k < |ess| => JoinWith(ess[k], ','))
  }

  /** A table of written cells, two or more per line, joined line by line,
      reads back as the table of their values. */
  lemma {:induction false} ParseCsvLines(ess: seq<seq<string>>, vss: seq<seq<string>>)
    requires |ess| == |vss|
    requires forall k :: 0 <= k < |ess| ==> |ess[k]| >= 2 && EncodesAll(ess[k], vss[k])
    ensures ParseCsv(JoinWith(Lines(ess), '\n')) == Some(vss)
  {
    if ess != [] {
      var e := ess[0];
      var tail := if |ess| == 1 then [] else ['\n'] + JoinWith(Lines(ess[1..]), '\n');
      assert Lines(ess)[1..] == Lines(ess[1..]);
      assert JoinWith(Lines(ess), '\n') == JoinWith(e, ',') + tail;
      ReadCellsJoin(e, vss[0], tail);
      assert JoinWith(e, ',') != [] by {
        assert JoinWith(e, ',') == e[0] + [','] + JoinWith(e[1..], ',');
      }
      ParseCsvLines(ess[1..], vss[1..]);
      if |ess| == 1 {
        assert Lines(ess[1..]) == [];
      }
      assert vss == [vss[0]] + vss[1..];
    }
  }

  // ---------------------------------------------------------------------
  // The export.
  // ---------------------------------------------------------------------

  /** Every text escaped. */
  function EscapeAll(xs: seq<string>): (r: seq<string>)
    ensures EncodesAll(r, xs)
  {
    seq(|xs|, i requires 0 <= i < |xs| => EscapeCsv(xs[i]))
  }

  /** The eleven readable answers, in column order. */
  function ReadableCells(d: LeadData): (r: seq<string>)
    ensures |r| == 11
  {
    [d.firstName, d.lastName, d.role, d.industry, d.revenue, d.employees, d.budget, d.clarity,
     d.needDetails, d.source, d.serviceInterest]
  }

  /** The seven recommendation texts, in column order. */
  function RecommendationCells(rec: Recommendations): (r: seq<string>)
    ensures |r| == 7
  {
    [rec.scoreJustification, rec.priority.Text(), rec.serviceCategory, rec.service,
     rec.serviceJustification, rec.nextSteps, rec.action]
  }

  /** The 21 cells of one history entry as the export writes them, given
      the rendered date (`new Date(id).toLocaleString()`) and the rendered
      score (`finalScore.toFixed(1)`): the identifier, the date and the
      score unquoted, every other cell escaped. */
  function RowAsWritten(lead: HistoricLead, date: string, score: string): (r: seq<string>)
    ensures |r| == |Headers| == 21
  {
    [lead.id, date] + EscapeAll(ReadableCells(lead.readableData))
    + [score] + EscapeAll(RecommendationCells(lead.recommendations))
  }

  /** The row with the date cell escaped like the answers. */
  function Row(lead: HistoricLead, date: string, score: string): (r: seq<string>)
    ensures |r| == |Headers|
  {
    RowAsWritten(lead, EscapeCsv(date), score)
  }

  /** The 21 values a row is meant to carry, one per column title. */
  function RowValues(lead: HistoricLead, date: string, score: string): (r: seq<string>)
    ensures |r| == |Headers|
  {
    [lead.id, date] + ReadableCells(lead.readableData) + [score] + RecommendationCells(lead.recommendations)
  }

  /** The written lines of the export: the titles, then one row per entry,
      newest first as the history holds them. `dateOf` renders an
      identifier as a local date, `scoreText` renders a score. */
  function ExportTable(history: seq<HistoricLead>, dateOf: string -> string, scoreText: real -> string): (r: seq<seq<string>>)
    ensures |r| == |history| + 1
  {
    [Headers] + seq(|history|, k requires 0 <= k < |history| =>
                  Row(history[k], dateOf(history[k].id), scoreText(history[k].scoreResult.finalScore)))
  }

  /** The values the export is meant to carry: the titles, then each
      entry's 21 values. */
  function ExportValues(history: seq<HistoricLead>, dateOf: string -> string, scoreText: real -> string): (r: seq<seq<string>>)
    ensures |r| == |history| + 1
  {
    [Headers] + seq(|history|, k requires 0 <= k < |history| =>
                  RowValues(history[k], dateOf(history[k].id), scoreText(history[k].scoreResult.finalScore)))
  }

  /** `handleExportToCSV`: nothing for an empty history; otherwise the
      byte-order mark followed by the lines joined by line breaks. */
  function ExportCsv(history: seq<HistoricLead>, dateOf: string -> string, scoreText: real -> string): (r: Option<string>)
    ensures r.None? <==> history == []
    ensures r.Some? ==> r.value != [] && r.value[0] == '\U{FEFF}'
  {
    if history == [] then None
    else Some(['\U{FEFF}'] + JoinWith(Lines(ExportTable(history, dateOf, scoreText)), '\n'))
  }

  /** The first five answer titles need no quoting. */
  lemma AnswerTitlesFrontArePlain()
    ensures forall k :: 0 <= k < 5 ==> PlainCell(AnswerTitles[k])
  {
    assert PlainCell("Nombre") && PlainCell("Apellido") && PlainCell("Rol del contacto");
    assert PlainCell("Industria") && PlainCell("Facturación anual");
  }

  /** The sixth to eighth answer titles need no quoting. */
  lemma AnswerTitlesMiddleArePlain()
    ensures forall k :: 5 <= k < 8 ==> PlainCell(AnswerTitles[k])
  {
    assert PlainCell("Cantidad de colaboradores") && PlainCell("Presupuesto");
    assert PlainCell("Claridad de la necesidad");
  }

  /** The last three answer titles need no quoting. */
  lemma AnswerTitlesBackArePlain()
    ensures forall k :: 8 <= k < 11 ==> PlainCell(AnswerTitles[k])
  {
    assert PlainCell("Detalle de la necesidad");
    assert PlainCell("Origen del contacto") && PlainCell("Servicio de interés inicial");
  }

  /** The titles of the answer columns need no quoting. */
  lemma AnswerTitlesArePlain()
    ensures EncodesAll(AnswerTitles, AnswerTitles)
  {
    AnswerTitlesFrontArePlain();
    AnswerTitlesMiddleArePlain();
    AnswerTitlesBackArePlain();
  }

  /** The first four recommendation titles need no quoting. */
  lemma RecommendationTitlesFrontArePlain()
    ensures forall k :: 0 <= k < 4 ==> PlainCell(RecommendationTitles[k])
  {
    assert PlainCell("Justificación del Puntaje") && PlainCell("Prioridad");
    assert PlainCell("Categoría de Servicio") && PlainCell("Servicio Recomendado");
  }

  /** The last three recommendation titles need no quoting. */
  lemma RecommendationTitlesBackArePlain()
    ensures forall k :: 4 <= k < 7 ==> PlainCell(RecommendationTitles[k])
  {
    assert PlainCell("Justificación del Servicio") && PlainCell("Próximos Pasos");
    assert PlainCell("Acción Inmediata Sugerida");
  }

  /** The titles of the recommendation columns need no quoting. */
  lemma RecommendationTitlesArePlain()
    ensures EncodesAll(RecommendationTitles, RecommendationTitles)
  {
    RecommendationTitlesFrontArePlain();
    RecommendationTitlesBackArePlain();
  }

  /** No column title needs quoting, so the header line reads back as the
      21 titles. */
  lemma HeadersArePlain()
    ensures |Headers| == 21
    ensures EncodesAll(Headers, Headers)
  {
    var front := ["ID", "Fecha"];
    assert PlainCell("ID") && PlainCell("Fecha") && PlainCell("Puntaje Final");
    assert EncodesAll(front, front) && EncodesAll(["Puntaje Final"], ["Puntaje Final"]);
    AnswerTitlesArePlain();
    RecommendationTitlesArePlain();
    EncodesAllConcat(front, front, AnswerTitles, AnswerTitles);
    EncodesAllConcat(front + AnswerTitles, front + AnswerTitles, ["Puntaje Final"], ["Puntaje Final"]);
    EncodesAllConcat(front + AnswerTitles + ["Puntaje Final"], front + AnswerTitles + ["Puntaje Final"],
                     RecommendationTitles, RecommendationTitles);
  }

  /** Each cell of a row reads back as its value, provided the identifier
      and the rendered score need no quoting (an ISO timestamp and a
      decimal number do not). */
  lemma RowEncodes(lead: HistoricLead, date: string, score: string)
    requires PlainCell(lead.id) && PlainCell(score)
    ensures EncodesAll(Row(lead, date, score), RowValues(lead, date, score))
  {
    var d := ReadableCells(lead.readableData);
    var rec := RecommendationCells(lead.recommendations);
    assert EncodesAll([lead.id, EscapeCsv(date)], [lead.id, date]);
    EncodesAllConcat([lead.id, EscapeCsv(date)], [lead.id, date], EscapeAll(d), d);
    EncodesAllConcat([lead.id, EscapeCsv(date)] + EscapeAll(d), [lead.id, date] + d, [score], [score]);
    EncodesAllConcat([lead.id, EscapeCsv(date)] + EscapeAll(d) + [score], [lead.id, date] + d + [score], EscapeAll(rec), rec);
  }

  /** The export reads back as the titles followed by every entry's 21
      values, in history order: no cell spills into its neighbour. */
  lemma ExportRoundTrip(history: seq<HistoricLead>, dateOf: string -> string, scoreText: real -> string)
    requires history != []
    requires forall k :: 0 <= k < |history| ==>
               PlainCell(history[k].id) && PlainCell(scoreText(history[k].scoreResult.finalScore))
    ensures ExportCsv(history, dateOf, scoreText).Some?
    ensures ParseCsv(ExportCsv(history, dateOf, scoreText).value[1..]) == Some(ExportValues(history, dateOf, scoreText))
  {
    var ess := ExportTable(history, dateOf, scoreText);
    var vss := ExportValues(history, dateOf, scoreText);
    HeadersArePlain();
    forall k | 0 <= k < |ess| ensures |ess[k]| >= 2 && EncodesAll(ess[k], vss[k]) {
      if k > 0 {
        var lead := history[k - 1];
        RowEncodes(lead, dateOf(lead.id), scoreText(lead.scoreResult.finalScore));
      }
    }
    ParseCsvLines(ess, vss);
  }

  /** Splitting one cell at a comma does not change the joined line. */
  lemma JoinSplitCell(a: string, p: string, q: string, rest: seq<string>)
    requires rest != []
    ensures JoinWith([a, p + [','] + q] + rest, ',') == JoinWith([a, p, q] + rest, ',')
  {
    var xs := [a, p + [','] + q] + rest;
    var ys := [a, p, q] + rest;
    assert xs[1..][1..] == rest && ys[1..][1..][1..] == rest;
    var j := JoinWith(rest, ',');
    assert JoinWith(xs, ',') == a + [','] + ((p + [','] + q) + [','] + j);
    assert ys[1..] == [p, q] + rest && ys[1..][1..] == [q] + rest;
    assert JoinWith([q] + rest, ',') == q + [','] + j;
    assert JoinWith([p, q] + rest, ',') == p + [','] + (q + [','] + j);
    assert JoinWith(ys, ',') == a + [','] + (p + [','] + (q + [','] + j));
  }

  /** As written, a date rendered with a comma (as most locales render
      `toLocaleString()`: "19/10/2026, 10:30:00") splits into two cells:
      the row reads back with 22 cells under 21 titles, every cell after
      the date shifted one column to the right. */
  lemma AsWrittenDateSplits(lead: HistoricLead, p: string, q: string, score: string)
    requires PlainCell(p) && PlainCell(q)
    requires PlainCell(lead.id) && PlainCell(score)
    ensures ReadCells(JoinWith(RowAsWritten(lead, p + [','] + q, score), ',')).Some?
    ensures |ReadCells(JoinWith(RowAsWritten(lead, p + [','] + q, score), ',')).value.0| == |Headers| + 1
    ensures ReadCells(JoinWith(RowAsWritten(lead, p + [','] + q, score), ',')).value.0[1..3] == [p, q]
  {
    var d := ReadableCells(lead.readableData);
    var rec := RecommendationCells(lead.recommendations);
    var rest := EscapeAll(d) + [score] + EscapeAll(rec);
    var restVals := d + [score] + rec;
    assert RowAsWritten(lead, p + [','] + q, score) == [lead.id, p + [','] + q] + rest;
    JoinSplitCell(lead.id, p, q, rest);
    assert EncodesAll([lead.id, p, q], [lead.id, p, q]);
    EncodesAllConcat(EscapeAll(d), d, [score], [score]);
    EncodesAllConcat(EscapeAll(d) + [score], d + [score], EscapeAll(rec), rec);
    EncodesAllConcat([lead.id, p, q], [lead.id, p, q], rest, restVals);
    ReadCellsJoin([lead.id, p, q] + rest, [lead.id, p, q] + restVals, []);
    assert JoinWith([lead.id, p, q] + rest, ',') + [] == JoinWith([lead.id, p, q] + rest, ',');
  }

  /** A concrete instance: an entry dated "19/10/2026, 10:30:00" is written
      as a line of 22 cells. */
  lemma AsWrittenExample(lead: HistoricLead, score: string)
    requires PlainCell(lead.id) && PlainCell(score)
    ensures ReadCells(JoinWith(RowAsWritten(lead, "19/10/2026, 10:30:00", score), ',')).Some?
    ensures |ReadCells(JoinWith(RowAsWritten(lead, "19/10/2026, 10:30:00", score), ',')).value.0| == 22
  {
    assert "19/10/2026, 10:30:00" == "19/10/2026" + [','] + " 10:30:00";
    AsWrittenDateSplits(lead, "19/10/2026", " 10:30:00", score);
  }
}
