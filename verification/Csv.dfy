/** The CSV exports, and a reader for section 2 of RFC 4180 that takes them back. */
module Csv {
  import opened Prelude
  import opened Text

  /** What a cell may hold in these exports. */
  datatype Value = TextValue(text: string) | NoValue | Flag(value: bool)

  function TextOf(v: Value): (s: string)
  {
    match v
    case TextValue(s) => s
    case NoValue => ""
    case Flag(b) => if b then "true" else "false"
  }

  // ---------------------------------------------------------------- writing

  /** A spreadsheet would take the text for a formula: tabs, returns and blanks, then one of = + - @. */
  predicate FormulaLike(s: string)
  {
    s != [] && (s[0] in "=+-@" || (s[0] in "\t\r " && FormulaLike(s[1..])))
  }

  /** The cell text that is written: a leading apostrophe disarms a formula. */
  function Guard(s: string): (r: string)
    ensures !FormulaLike(r)
    ensures r == s || r == "'" + s
  {
    if FormulaLike(s) then "'" + s else s
  }

  /** After blanks, tabs and returns alone, the text goes on with a sign that begins a formula. */
  ghost predicate BeginsFormula(s: string, i: nat)
  {
    i < |s| && (s[i] == '=' || s[i] == '+' || s[i] == '-' || s[i] == '@') &&
    forall j :: 0 <= j < i ==> s[j] == '\t' || s[j] == '\r' || s[j] == ' '
  }

  /** The apostrophe is written exactly where a spreadsheet would see a formula; every other text is written as it is. */
  lemma {:induction false} GuardIff(s: string)
    ensures if exists i: nat :: BeginsFormula(s, i) then Guard(s) == "'" + s else Guard(s) == s
  {
    if s != [] {
      GuardIff(s[1..]);
      assert FormulaLike(s[1..]) <==> Guard(s[1..]) == "'" + s[1..];
      if i: nat :| BeginsFormula(s, i) {
        assert i > 0 ==> BeginsFormula(s[1..], i - 1);
        assert i == 0 ==> FormulaLike(s);
      }
      if i: nat :| BeginsFormula(s[1..], i) {
        assert s[0] in "\t\r " ==> BeginsFormula(s, i + 1);
      }
      assert s[0] in "=+-@" ==> BeginsFormula(s, 0);
    }
  }

  function DoubleQuotes(s: string): (r: string)
  {
    if s == [] then [] else (if s[0] == '"' then "\"\"" else [s[0]]) + DoubleQuotes(s[1..])
  }

  function Cell(v: Value): (r: string)
  {
    "\"" + DoubleQuotes(Guard(TextOf(v))) + "\""
  }

  function Cells(row: seq<Value>): (r: seq<string>)
  {
    if row == [] then [] else [Cell(row[0])] + Cells(row[1..])
  }

  function Lines(rows: seq<seq<Value>>): (r: seq<string>)
    ensures |r| == |rows|
  {
    if rows == [] then [] else [Join(Cells(rows[0]), ",")] + Lines(rows[1..])
  }

  function Render(rows: seq<seq<Value>>): (csv: string)
  {
    Join(Lines(rows), "\r\n") + "\r\n"
  }

  // ---------------------------------------------------------------- reading

  /** The rest of an escaped field, after its opening quote. */
  ghost function ReadEscaped(s: string): (r: Option<(string, string)>)
    ensures r.Some? ==> |r.value.1| < |s|
  {
    if s == [] then None
    else if s[0] != '"' then
      match ReadEscaped(s[1..])
      case None => None
      case Some((text, rest)) => Some(([s[0]] + text, rest))
    else if |s| > 1 && s[1] == '"' then
      match ReadEscaped(s[2..])
      case None => None
      case Some((text, rest)) => Some(("\"" + text, rest))
    else Some(("", s[1..]))
  }

  /** A field that is not escaped ends at a comma, a line break or a quote. */
  ghost function ReadPlain(s: string): (r: (string, string))
    ensures |r.1| <= |s|
  {
    if s == [] || s[0] in ",\r\n\"" then ("", s)
    else
      var (text, rest) := ReadPlain(s[1..]);
      ([s[0]] + text, rest)
  }

  ghost function ReadField(s: string): (r: Option<(string, string)>)
    ensures r.Some? ==> |r.value.1| <= |s|
  {
    if s != [] && s[0] == '"' then ReadEscaped(s[1..]) else Some(ReadPlain(s))
  }

  ghost function ReadRecord(s: string): (r: Option<(seq<string>, string)>)
    ensures r.Some? ==> |r.value.1| <= |s|
    decreases |s|
  {
    match ReadField(s)
    case None => None
    case Some((field, rest)) =>
      if rest != [] && rest[0] == ',' then
        match ReadRecord(rest[1..])
        case None => None
        case Some((fields, rest')) => Some(([field] + fields, rest'))
      else Some(([field], rest))
  }

  /** Records separated by CRLF; the last one may or may not be followed by one. */
  ghost function Read(s: string): (r: Option<seq<seq<string>>>)
    decreases |s|
  {
    if s == [] then Some([])
    else
      match ReadRecord(s)
      case None => None
      case Some((record, rest)) =>
        if rest == [] then Some([record])
        else if |rest| >= 2 && rest[..2] == "\r\n" then
          match Read(rest[2..])
          case None => None
          case Some(records) => Some([record] + records)
        else None
  }

  // ---------------------------------------------------------------- round trip

  function Texts(row: seq<Value>): (r: seq<string>)
    ensures |r| == |row| && forall i :: 0 <= i < |row| ==> r[i] == Guard(TextOf(row[i]))
  {
    if row == [] then [] else [Guard(TextOf(row[0]))] + Texts(row[1..])
  }

  function Matrix(rows: seq<seq<Value>>): (r: seq<seq<string>>)
    ensures |r| == |rows| && forall i :: 0 <= i < |rows| ==> r[i] == Texts(rows[i])
  {
    if rows == [] then [] else [Texts(rows[0])] + Matrix(rows[1..])
  }

  lemma {:induction false} ReadEscapedBack(s: string, rest: string)
    requires rest == [] || rest[0] != '"'
    ensures ReadEscaped(DoubleQuotes(s) + "\"" + rest) == Some((s, rest))
  {
    if s == [] {
      assert DoubleQuotes(s) + "\"" + rest == "\"" + rest;
      assert ("\"" + rest)[1..] == rest;
    } else {
      ReadEscapedBack(s[1..], rest);
      var tail := DoubleQuotes(s[1..]) + "\"" + rest;
      var head := if s[0] == '"' then "\"\"" else [s[0]];
      var all := DoubleQuotes(s) + "\"" + rest;
      AppendAssociative(head, DoubleQuotes(s[1..]), "\"" + rest);
      AppendAssociative(DoubleQuotes(s[1..]), "\"", rest);
      AppendAssociative(DoubleQuotes(s), "\"", rest);
      assert all == head + tail;
      assert all[|head|..] == tail;
      assert s == [s[0]] + s[1..];
    }
  }

  lemma ReadCellBack(v: Value, rest: string)
    requires rest == [] || rest[0] != '"'
    ensures ReadField(Cell(v) + rest) == Some((Guard(TextOf(v)), rest))
  {
    hide Guard, ReadEscaped;
    var body := DoubleQuotes(Guard(TextOf(v)));
    ReadEscapedBack(Guard(TextOf(v)), rest);
    assert (Cell(v) + rest)[1..] == body + "\"" + rest;
  }

  lemma {:induction false} ReadRecordBack(row: seq<Value>, rest: string)
    requires row != [] && (rest == [] || (rest[0] != '"' && rest[0] != ','))
    ensures ReadRecord(Join(Cells(row), ",") + rest) == Some((Texts(row), rest))
  {
    hide Cell, Guard, TextOf, ReadField;
    if |row| == 1 {
      assert Cells(row) == [Cell(row[0])] by { assert row[1..] == []; }
      assert Texts(row) == [Guard(TextOf(row[0]))] by { assert row[1..] == []; }
      ReadCellBack(row[0], rest);
    } else {
      var tail := Join(Cells(row[1..]), ",") + rest;
      JoinCells(row);
      assert Join(Cells(row), ",") + rest == Cell(row[0]) + ("," + tail);
      ReadCellBack(row[0], "," + tail);
      assert ("," + tail)[1..] == tail;
      ReadRecordBack(row[1..], rest);
    }
  }

  lemma JoinCells(row: seq<Value>)
    requires |row| >= 2
    ensures Join(Cells(row), ",") == Cell(row[0]) + "," + Join(Cells(row[1..]), ",")
  {
    hide Cell;
    assert |Cells(row[1..])| >= 1;
    assert Cells(row)[1..] == Cells(row[1..]);
  }

  /** Every line of a rendered file is followed by a line break. */
  lemma RenderCons(rows: seq<seq<Value>>)
    requires |rows| >= 2
    ensures Render(rows) == Join(Cells(rows[0]), ",") + "\r\n" + Render(rows[1..])
  {
    hide Cells;
    assert Lines(rows)[1..] == Lines(rows[1..]);
  }

  /**
    A reader of section 2 of RFC 4180 recovers exactly the matrix of guarded cell texts, whatever
    quotes, commas and line breaks the cells contain.
   */
  lemma {:induction false} ReadBack(rows: seq<seq<Value>>)
    requires rows != [] && forall i :: 0 <= i < |rows| ==> rows[i] != []
    ensures Read(Render(rows)) == Some(Matrix(rows))
  {
    hide Cells, Texts, ReadRecord;
    if |rows| == 1 {
      assert Lines(rows) == [Join(Cells(rows[0]), ",")] by { assert rows[1..] == []; }
      ReadRecordBack(rows[0], "\r\n");
      assert "\r\n"[2..] == "" && rows[1..] == [];
      NotEmpty(rows[0], "\r\n");
    } else {
      RenderCons(rows);
      var rest := "\r\n" + Render(rows[1..]);
      ReadRecordBack(rows[0], rest);
      assert Render(rows) == Join(Cells(rows[0]), ",") + rest;
      assert rest[..2] == "\r\n" && rest[2..] == Render(rows[1..]);
      NotEmpty(rows[0], rest);
      ReadBack(rows[1..]);
    }
  }

  lemma NotEmpty(row: seq<Value>, rest: string)
    requires rest != []
    ensures Join(Cells(row), ",") + rest != []
  {
  }

  // ---------------------------------------------------------------- the two exports

  datatype Source = Source(
    id: string, title: string, publisher: Option<string>, author: Option<string>, url: Option<string>,
    publishedAt: Option<string>, accessedAt: string, sourceType: string, reliability: string,
    freshness: string, usageRestrictions: Option<string>)

  datatype Evidence = Evidence(
    evidenceId: string, summary: string, quote: Option<string>, relationship: string,
    supportExtent: string, sourceId: string, sourceTitle: string)

  datatype Claim = Claim(
    id: string, content: string, claimType: string, importance: string, supportStatus: string,
    factOrInference: string, withinScope: bool, includeInReport: bool, linkedEvidence: seq<Evidence>)

  function Texted(names: seq<string>): (row: seq<Value>)
    ensures |row| == |names|
  {
    if names == [] then [] else [TextValue(names[0])] + Texted(names[1..])
  }

  function OrNone(s: Option<string>): Value
  {
    if s.Some? then TextValue(s.value) else NoValue
  }

  const SOURCE_COLUMNS: seq<string> :=
    ["source_id", "title", "publisher", "author", "url", "published_at", "accessed_at", "source_type",
     "reliability", "freshness", "usage_restrictions"]

  const LEDGER_COLUMNS: seq<string> :=
    ["claim_id", "claim", "claim_type", "importance", "support_status", "fact_or_inference", "within_scope",
     "included", "relationship", "support_extent", "evidence_id", "evidence_summary", "minimal_quote",
     "source_id", "source_title"]

  function SourceRow(s: Source): (row: seq<Value>)
    ensures |row| == 11
  {
    [TextValue(s.id), TextValue(s.title), OrNone(s.publisher), OrNone(s.author), OrNone(s.url), OrNone(s.publishedAt),
     TextValue(s.accessedAt), TextValue(s.sourceType), TextValue(s.reliability), TextValue(s.freshness),
     OrNone(s.usageRestrictions)]
  }

  function SourceRows(sources: seq<Source>): (rows: seq<seq<Value>>)
    ensures |rows| == 1 + |sources|
  {
    [Texted(SOURCE_COLUMNS)] + seq(|sources|, i requires 0 <= i < |sources| => SourceRow(sources[i]))
  }

  function ClaimCells(c: Claim): (row: seq<Value>)
  {
    [TextValue(c.id), TextValue(c.content), TextValue(c.claimType), TextValue(c.importance), TextValue(c.supportStatus),
     TextValue(c.factOrInference), Flag(c.withinScope), Flag(c.includeInReport)]
  }

  function EvidenceRow(c: Claim, e: Evidence): (row: seq<Value>)
    ensures |row| == 15
  {
    ClaimCells(c) + [TextValue(e.relationship), TextValue(e.supportExtent), TextValue(e.evidenceId), TextValue(e.summary),
                     OrNone(e.quote), TextValue(e.sourceId), TextValue(e.sourceTitle)]
  }

  function BareRow(c: Claim): (row: seq<Value>)
    ensures |row| == 15
  {
    ClaimCells(c) + Texted(["", "", "", "", "", "", ""])
  }

  /** A claim takes one row per linked evidence, and one row when it has none. */
  function ClaimRows(c: Claim): (rows: seq<seq<Value>>)
    ensures |rows| == if c.linkedEvidence == [] then 1 else |c.linkedEvidence|
    ensures forall i :: 0 <= i < |rows| ==> |rows[i]| == 15
  {
    if c.linkedEvidence == [] then [BareRow(c)]
    else seq(|c.linkedEvidence|, i requires 0 <= i < |c.linkedEvidence| => EvidenceRow(c, c.linkedEvidence[i]))
  }

  function LedgerRows(claims: seq<Claim>): (rows: seq<seq<Value>>)
  {
    [Texted(LEDGER_COLUMNS)] + FlatMap(claims, ClaimRows)
  }

  function LedgerSize(claims: seq<Claim>): (n: nat)
  {
    if claims == [] then 0
    else (if |claims[0].linkedEvidence| > 1 then |claims[0].linkedEvidence| else 1) + LedgerSize(claims[1..])
  }

  /** 1 + the sum of max(1, evidence count) rows, each of fifteen columns. */
  lemma {:induction false} LedgerShape(claims: seq<Claim>)
    ensures |FlatMap(claims, ClaimRows)| == LedgerSize(claims)
    ensures forall i :: 0 <= i < |FlatMap(claims, ClaimRows)| ==> |FlatMap(claims, ClaimRows)[i]| == 15
  {
    if claims != [] {
      LedgerShape(claims[1..]);
    }
  }

  /** The loop of `renderLedgerCsv`. */
  method RenderLedger(claims: seq<Claim>) returns (csv: string)
    ensures csv == Render(LedgerRows(claims))
  {
    hide ClaimCells, Render, Texted, BareRow, EvidenceRow, FlatMap;
    var rows := [Texted(LEDGER_COLUMNS)];
    assert FlatMap(claims[..0], ClaimRows) == [] by { EmptyFlatMap(claims[..0], ClaimRows); }
    for i := 0 to |claims|
      invariant rows == [Texted(LEDGER_COLUMNS)] + FlatMap(claims[..i], ClaimRows)
    {
      var claim := claims[i];
      FlatMapNext(claims, i, ClaimRows);
      ghost var before := rows;
      if claim.linkedEvidence == [] {
        rows := rows + [BareRow(claim)];
      } else {
        for j := 0 to |claim.linkedEvidence|
          invariant rows == before + ClaimRows(claim)[..j]
        {
          rows := rows + [EvidenceRow(claim, claim.linkedEvidence[j])];
        }
      }
    }
    assert claims[..|claims|] == claims;
    csv := Render(rows);
  }

  /** Reading the ledger back gives its header and one guarded row per claim and evidence, in order. */
  lemma LedgerReadBack(claims: seq<Claim>)
    ensures Read(Render(LedgerRows(claims))) == Some(Matrix(LedgerRows(claims)))
    ensures |Matrix(LedgerRows(claims))| == 1 + LedgerSize(claims)
    ensures forall i :: 0 <= i < |Matrix(LedgerRows(claims))| ==> |Matrix(LedgerRows(claims))[i]| == 15
  {
    LedgerShape(claims);
    var rows := LedgerRows(claims);
    hide Render, Read, FlatMap, ClaimRows, Texted, Texts;
    assert forall i :: 0 <= i < |rows| ==> |rows[i]| == 15;
    ReadBack(rows);
  }

  ghost function GivenOr(s: Option<string>): (text: string)
  {
    match s case Some(text) => text case None => ""
  }

  ghost function YesNo(b: bool): (text: string)
  {
    if b then "true" else "false"
  }

  /** The texts of the record of one source, column by column. */
  lemma SourceColumns(s: Source)
    ensures var t := Texts(SourceRow(s));
      && |t| == 11 && t[0] == Guard(s.id) && t[1] == Guard(s.title) && t[2] == Guard(GivenOr(s.publisher)) && t[3] == Guard(GivenOr(s.author))
      && t[4] == Guard(GivenOr(s.url)) && t[5] == Guard(GivenOr(s.publishedAt)) && t[6] == Guard(s.accessedAt)
      && t[7] == Guard(s.sourceType) && t[8] == Guard(s.reliability) && t[9] == Guard(s.freshness)
      && t[10] == Guard(GivenOr(s.usageRestrictions))
  {
    hide Guard, Texts;
  }

  /** The texts of the columns that every row of a claim has. */
  ghost predicate HasClaim(c: Claim, t: seq<string>)
  {
    && |t| == 15 && t[0] == Guard(c.id) && t[1] == Guard(c.content) && t[2] == Guard(c.claimType) && t[3] == Guard(c.importance)
    && t[4] == Guard(c.supportStatus) && t[5] == Guard(c.factOrInference)
    && t[6] == Guard(YesNo(c.withinScope)) && t[7] == Guard(YesNo(c.includeInReport))
  }

  /** The texts of the row of one linked evidence. */
  lemma EvidenceColumns(c: Claim, e: Evidence)
    ensures var t := Texts(EvidenceRow(c, e));
      && HasClaim(c, t) && t[8] == Guard(e.relationship) && t[9] == Guard(e.supportExtent) && t[10] == Guard(e.evidenceId)
      && t[11] == Guard(e.summary) && t[12] == Guard(GivenOr(e.quote)) && t[13] == Guard(e.sourceId) && t[14] == Guard(e.sourceTitle)
  {
    hide Guard, Texts;
  }

  /** A claim without evidence has empty columns for it. */
  lemma BareColumns(c: Claim)
    ensures HasClaim(c, Texts(BareRow(c))) && forall k :: 8 <= k < 15 ==> Texts(BareRow(c))[k] == ""
  {
    hide Texts, HasClaim, BareRow;
    BareClaim(c);
    forall k | 8 <= k < 15 ensures Texts(BareRow(c))[k] == "" {
      BlankColumn(c, k);
    }
  }

  lemma BareClaim(c: Claim)
    ensures HasClaim(c, Texts(BareRow(c)))
  {
    hide Guard, Texts, Texted;
  }

  lemma BlankColumn(c: Claim, k: nat)
    requires 8 <= k < 15
    ensures BareRow(c)[k] == TextValue("")
  {
    TextedAt(["", "", "", "", "", "", ""], k - 8);
    hide Texted;
  }

  lemma {:induction false} TextedAt(names: seq<string>, k: nat)
    requires k < |names|
    ensures Texted(names)[k] == TextValue(names[k])
  {
    if k > 0 {
      TextedAt(names[1..], k - 1);
    }
  }

  /** The rows of one claim: one for each linked evidence, in order, or a bare one. */
  lemma ClaimRowsAre(c: Claim, i: nat)
    requires i < |ClaimRows(c)|
    ensures ClaimRows(c)[i] == if c.linkedEvidence == [] then BareRow(c) else EvidenceRow(c, c.linkedEvidence[i])
  {
  }

  lemma SourcesReadBack(sources: seq<Source>)
    ensures Read(Render(SourceRows(sources))) == Some(Matrix(SourceRows(sources)))
    ensures |Matrix(SourceRows(sources))| == 1 + |sources|
    ensures forall i :: 0 <= i <= |sources| ==> |Matrix(SourceRows(sources))[i]| == 11
  {
    hide Render, Read, SourceRow, Texted, Texts;
    var rows := SourceRows(sources);
    assert forall i :: 0 <= i < |rows| ==> |rows[i]| == 11;
    ReadBack(rows);
  }
}
