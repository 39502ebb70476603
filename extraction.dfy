/**
 * Reading the five market inputs out of the fair-value page. The page is given
 * already parsed, as its tables, each table as its rows and each row as the
 * texts of its data cells. The fields sit in the second cell of rows 1 to 5 of
 * the second table. A page of the wrong shape is reported as an error; a cell of
 * the right shape whose text is no number falls back to zero.
 */
module Extraction {
  import opened Wrappers
  import opened CellText

  /** The texts of a row's data cells. */
  type Row = seq<string>
  type Table = seq<Row>
  /** The tables of the page, in document order. */
  type Page = seq<Table>

  /** Why no inputs could be produced: the page was not served (a status other
      than 200), or a table, row or cell the extraction reads is missing. */
  datatype Error = FetchFailed | IndexOutOfRange

  datatype MarketInputs = MarketInputs(
    spxPrice: real,
    esPrice: real,
    interestRate: real,        // a fraction: the percentage on the page divided by 100
    expectedDividends: real,
    daysToExpiry: nat)

  /** The shape the extraction needs: a second table with at least six rows,
      rows 1 to 5 of which have at least two cells. */
  predicate WellShaped(page: Page) {
    && |page| >= 2 && |page[1]| >= 6
    && |page[1][1]| >= 2 && |page[1][2]| >= 2 && |page[1][3]| >= 2 && |page[1][4]| >= 2 && |page[1][5]| >= 2
  }

  /** The text of the cell the page holds field `i` (1 to 5) in. */
  function FieldCell(page: Page, i: nat): string
    requires WellShaped(page) && 1 <= i <= 5
  {
    page[1][i][1]
  }

  /** List indexing as Python does it: out of range is an error. */
  function Nth<T>(s: seq<T>, i: nat): (r: Result<T, Error>)
    ensures r.Success? <==> i < |s|
    ensures r.Success? ==> r.value == s[i]
    ensures r.Failure? ==> r.error == IndexOutOfRange
  {
    if i < |s| then Success(s[i]) else Failure(IndexOutOfRange)
  }

  /** The second data cell of row `i`. */
  function SecondCell(rows: Table, i: nat): (r: Result<string, Error>)
    ensures r.Success? <==> i < |rows| && |rows[i]| >= 2
    ensures r.Success? ==> r.value == rows[i][1]
    ensures r.Failure? ==> r.error == IndexOutOfRange
  {
    var row :- Nth(rows, i);
    Nth(row, 1)
  }

  /** The body of the `try` block: take the second table, read the second
      cell of rows 1 to 5, and normalise each text. */
  function Extract(parse: string -> Option<real>, page: Page): (r: Result<MarketInputs, Error>)
    ensures r.Success? <==> WellShaped(page)
    ensures r.Failure? ==> r.error == IndexOutOfRange
    ensures r.Success? ==> r.value == MarketInputs(
      SafeFloat(parse, FieldCell(page, 1)),
      SafeFloat(parse, FieldCell(page, 2)),
      SafeFloat(parse, FieldCell(page, 3)) / 100.0,
      SafeFloat(parse, FieldCell(page, 4)),
      DaysToExpiry(FieldCell(page, 5)))
  {
    var rows :- Nth(page, 1);
    var spx :- SecondCell(rows, 1);
    var es :- SecondCell(rows, 2);
    var rate :- SecondCell(rows, 3);
    var dividends :- SecondCell(rows, 4);
    var days :- SecondCell(rows, 5);
    Success(MarketInputs(
      SafeFloat(parse, spx),
      SafeFloat(parse, es),
      SafeFloat(parse, rate) / 100.0,
      SafeFloat(parse, dividends),
      DaysToExpiry(days)))
  }

  /** The cell texts the extraction reads, in field order, or None when the page
      does not have the shape. */
  function Selected(page: Page): Option<seq<string>> {
    if WellShaped(page) then
      Some([FieldCell(page, 1), FieldCell(page, 2), FieldCell(page, 3), FieldCell(page, 4), FieldCell(page, 5)])
    else None
  }

  /** Only the five selected cells matter: two pages that agree on them (or
      both lack the shape) give the same outcome, whatever their other tables,
      their header row and their other cells hold. */
  lemma {:induction false} ExtractReadsOnlySelected(parse: string -> Option<real>, p: Page, q: Page)
    requires Selected(p) == Selected(q)
    ensures Extract(parse, p) == Extract(parse, q)
  {
    // Field by field: the solver needs each cell and each record field equated
    // separately to stay within the resource limit.
    if WellShaped(p) {
      var sp, sq := Selected(p).value, Selected(q).value;
      assert WellShaped(q);
      assert FieldCell(p, 1) == sp[0] == sq[0] == FieldCell(q, 1);
      assert FieldCell(p, 2) == sp[1] == sq[1] == FieldCell(q, 2);
      assert FieldCell(p, 3) == sp[2] == sq[2] == FieldCell(q, 3);
      assert FieldCell(p, 4) == sp[3] == sq[3] == FieldCell(q, 4);
      assert FieldCell(p, 5) == sp[4] == sq[4] == FieldCell(q, 5);
      var mp, mq := Extract(parse, p), Extract(parse, q);
      assert mp.Success? && mq.Success?;
      assert mp.value.spxPrice == mq.value.spxPrice;
      assert mp.value.esPrice == mq.value.esPrice;
      assert mp.value.interestRate == mq.value.interestRate;
      assert mp.value.expectedDividends == mq.value.expectedDividends;
      assert mp.value.daysToExpiry == mq.value.daysToExpiry;
    }
  }

  /** Rewriting any cell except the selected ones, including every cell of the
      header row, leaves the outcome unchanged. */
  lemma {:induction false} UnselectedCellIgnored(parse: string -> Option<real>, page: Page, i: nat, j: nat, text: string)
    requires |page| >= 2 && i < |page[1]| && j < |page[1][i]|
    requires !(1 <= i <= 5 && j == 1)
    ensures Extract(parse, page[1 := page[1][i := page[1][i][j := text]]]) == Extract(parse, page)
  {
    var q := page[1 := page[1][i := page[1][i][j := text]]];
    assert |q| == |page| && |q[1]| == |page[1]|;
    assert forall k :: 0 <= k < |page[1]| ==> |q[1][k]| == |page[1][k]|;
    if WellShaped(page) {
      assert WellShaped(q);
      assert forall k :: 1 <= k <= 5 ==> FieldCell(q, k) == FieldCell(page, k);
    } else {
      assert !WellShaped(q);
    }
    ExtractReadsOnlySelected(parse, page, q);
  }

  /** Any table other than the second can be replaced without effect. */
  lemma {:induction false} OtherTableIgnored(parse: string -> Option<real>, page: Page, t: nat, table: Table)
    requires t < |page| && t != 1
    ensures Extract(parse, page[t := table]) == Extract(parse, page)
  {
    ExtractReadsOnlySelected(parse, page, page[t := table]);
  }

  /** The interest rate is the row-3 percentage over 100; a row-3 text that the
      parser rejects gives a rate of 0.0 rather than an error. */
  lemma {:induction false} InterestRateDefault(parse: string -> Option<real>, page: Page)
    requires WellShaped(page)
    requires parse(CleanNumber(page[1][3][1])) == None
    ensures Extract(parse, page).Success?
    ensures Extract(parse, page).value.interestRate == 0.0
  {
  }

  /** Content never fails: a well-shaped page whose five cells are all blank
      extracts to all-zero inputs. */
  lemma {:induction false} BlankCellsGiveZeros(parse: string -> Option<real>, page: Page)
    requires WellShaped(page)
    requires forall i :: 1 <= i <= 5 ==> AllSpace(page[1][i][1])
    ensures Extract(parse, page) == Success(MarketInputs(0.0, 0.0, 0.0, 0.0, 0))
  {
    assert AllSpace(FieldCell(page, 1)) && AllSpace(FieldCell(page, 2)) && AllSpace(FieldCell(page, 3));
    assert AllSpace(FieldCell(page, 4)) && AllSpace(FieldCell(page, 5));
    assert Strip(FieldCell(page, 5)) == [];
  }

  // ---------------------------------------------------------------------
  // The response mapping

  /** A value in a JSON response. */
  datatype Value = Num(num: real) | Whole(whole: int) | Text(text: string)

  type Response = map<string, Value>

  /** "Could not obtain the data". */
  const FetchFailedMessage: string := "\U{7121}\U{6CD5}\U{53D6}\U{5F97}\U{8CC7}\U{6599}"

  /** "Error while parsing the data: " followed by the text of the IndexError,
      which is the same for a missing table, row or cell. */
  const ParseFailedMessage: string :=
    "\U{89E3}\U{6790}\U{6578}\U{64DA}\U{6642}\U{767C}\U{751F}\U{932F}\U{8AA4}: list index out of range"

  function ErrorMessage(e: Error): string {
    match e
    case FetchFailed => FetchFailedMessage
    case IndexOutOfRange => ParseFailedMessage
  }

  function ErrorResponse(e: Error): Response {
    map["error" := Text(ErrorMessage(e))]
  }

  function InputsResponse(m: MarketInputs): Response {
    map[
      "spx_price" := Num(m.spxPrice),
      "es_price" := Num(m.esPrice),
      "interest_rate" := Num(m.interestRate),
      "expected_dividends" := Num(m.expectedDividends),
      "days_to_expiry" := Whole(m.daysToExpiry)]
  }

  const InputKeys: set<string> := {"spx_price", "es_price", "interest_rate", "expected_dividends", "days_to_expiry"}

  /** Reads the five inputs back from a response, as the valuation does with
      `data["spx_price"]` and the like. */
  function DecodeInputs(data: Response): Option<MarketInputs> {
    if InputKeys <= data.Keys
      && data["spx_price"].Num? && data["es_price"].Num? && data["interest_rate"].Num?
      && data["expected_dividends"].Num? && data["days_to_expiry"].Whole?
      && data["days_to_expiry"].whole >= 0
    then
      Some(MarketInputs(
        data["spx_price"].num, data["es_price"].num, data["interest_rate"].num,
        data["expected_dividends"].num, data["days_to_expiry"].whole))
    else None
  }

  /** The success mapping has exactly the five input keys, none of them "error". */
  lemma InputsResponseKeys(m: MarketInputs)
    ensures InputsResponse(m).Keys == InputKeys
    ensures "error" !in InputKeys
  {
  }

  /** Reading a rendered set of inputs gives the inputs back. */
  lemma InputsResponseRoundTrip(m: MarketInputs)
    ensures DecodeInputs(InputsResponse(m)) == Some(m)
  {
    var data := InputsResponse(m);
    assert InputKeys <= data.Keys;
  }

  /** `fetch_fair_value_data`: an error mapping with the single key "error"
      when the page was not served or lacks the shape, and the five fields
      otherwise. The parser `parse` stands for Python's `float()`. */
  function FetchFairValueData(parse: string -> Option<real>, status: int, page: Page): (r: Response)
    ensures ("error" in r) <==> (status != 200 || !WellShaped(page))
    ensures status != 200 ==> r == ErrorResponse(FetchFailed)
    ensures status == 200 && !WellShaped(page) ==> r == ErrorResponse(IndexOutOfRange)
    ensures "error" in r ==> r.Keys == {"error"}
    ensures "error" !in r ==> r.Keys == InputKeys && DecodeInputs(r) == Some(Extract(parse, page).value)
  {
    if status != 200 then ErrorResponse(FetchFailed)
    else
      match Extract(parse, page)
      case Success(m) =>
        InputsResponseRoundTrip(m);
        InputsResponseKeys(m);
        InputsResponse(m)
      case Failure(e) => ErrorResponse(e)
  }
}
