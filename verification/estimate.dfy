/**
 The `POST /api/flooring-estimate` route of server.js with its upstream call
 taken as an input: the guard on the uploaded file, the branch for model
 output that is not JSON, and the post-calculation that turns the model's
 subtotal into waste, total and box counts.
 */
module FlooringEstimate {
  import opened Options
  import opened JsonValues
  import opened Ceiling

  /** Longest prefix of the model's text echoed back when it is not JSON. */
  const RawLimit: nat := 4000

  const MissingFileText := "Missing file"
  const InvalidJsonError := "Model did not return valid JSON"

  /** The multipart form: whether a file was attached, and the two numeric fields
      (`None` when the field is absent or empty). */
  datatype EstimateForm = EstimateForm(hasFile: bool, wastePct: Option<real>, sqftPerBox: Option<real>)

  /** The fields read from the model's parsed JSON object. `subtotal` is `None` when
      `subtotal_sqft` is absent or `null`; `rooms` and `notes` are the raw property reads. */
  datatype ModelFields = ModelFields(subtotal: Option<real>, rooms: Option<Json>, notes: Option<Json>)

  /** The result record returned with status 200. */
  datatype Estimate = Estimate(
    subtotalSqft: Option<real>,
    wastePct: real,
    wasteSqft: Option<real>,
    totalSqft: Option<real>,
    sqftPerBox: Option<real>,
    boxesNeeded: Option<int>,
    rooms: Json,
    notes: Json)

  datatype EstimateBody =
    | PlainText(text: string)
    | InvalidJson(error: string, raw: string)
    | Result(estimate: Estimate)

  datatype EstimateResponse = EstimateResponse(status: int, body: EstimateBody)

  /** `Number(field || 0)` on an already numeric form field. */
  function FormNumber(field: Option<real>): (x: real)
    ensures field.None? ==> x == 0.0
    ensures field.Some? ==> x == field.value
  {
    field.GetOr(0.0)
  }

  /** `s.slice(0, n)`: the longest prefix of `s` of length at most `n`. */
  function Prefix(s: string, n: nat): (r: string)
    ensures r <= s
    ensures |r| == if |s| <= n then |s| else n
  {
    if |s| <= n then s else s[..n]
  }

  /** The estimate contract, stated without computing it: null propagation,
      the waste and total formulas, the echoed parameters, the least whole
      number of boxes, and the defaulted lists. */
  ghost predicate MeetsContract(e: Estimate, f: ModelFields, wastePct: real, sqftPerBox: real) {
    && e.subtotalSqft == f.subtotal
    && e.wastePct == wastePct
    && (f.subtotal.None? ==> e.wasteSqft.None? && e.totalSqft.None?)
    && (f.subtotal.Some? ==>
          && e.wasteSqft == Some(f.subtotal.value * wastePct / 100.0)
          && e.totalSqft == Some(f.subtotal.value + e.wasteSqft.value))
    && (sqftPerBox > 0.0 ==> e.sqftPerBox == Some(sqftPerBox))
    && (sqftPerBox <= 0.0 ==> e.sqftPerBox.None?)
    && (e.boxesNeeded.Some? <==> e.totalSqft.Some? && sqftPerBox > 0.0)
    && (e.boxesNeeded.Some? ==> IsLeastCover(e.boxesNeeded.value, e.totalSqft.value, sqftPerBox))
    && (Nullish(f.rooms) ==> e.rooms == Arr([]))
    && (!Nullish(f.rooms) ==> e.rooms == f.rooms.value)
    && (Nullish(f.notes) ==> e.notes == Arr([]))
    && (!Nullish(f.notes) ==> e.notes == f.notes.value)
  }

  /** The post-calculation of server.js, from the model's fields and the two form parameters. */
  function PostCalc(f: ModelFields, wastePct: real, sqftPerBox: real): (e: Estimate)
    ensures e.subtotalSqft == f.subtotal && e.wastePct == wastePct
    ensures f.subtotal.None? ==> e.wasteSqft.None? && e.totalSqft.None? && e.boxesNeeded.None?
    ensures e.boxesNeeded.Some? ==> e.totalSqft.Some? && sqftPerBox > 0.0
    ensures e.totalSqft.Some? ==> e.totalSqft.value == f.subtotal.value * (1.0 + wastePct / 100.0)
  {
    var waste := if f.subtotal.None? then None else Some(f.subtotal.value * (wastePct / 100.0));
    var total := if f.subtotal.None? then None else Some(f.subtotal.value + waste.value);
    var boxes := if total.Some? && sqftPerBox > 0.0 then Some(Ceil(total.value / sqftPerBox)) else None;
    Estimate(
      f.subtotal,
      wastePct,
      waste,
      total,
      if sqftPerBox > 0.0 then Some(sqftPerBox) else None,
      boxes,
      Coalesce(f.rooms, Arr([])),
      Coalesce(f.notes, Arr([])))
  }

  /** The post-calculation meets the estimate contract. */
  lemma PostCalcMeetsContract(f: ModelFields, wastePct: real, sqftPerBox: real)
    ensures MeetsContract(PostCalc(f, wastePct, sqftPerBox), f, wastePct, sqftPerBox)
  {
    var e := PostCalc(f, wastePct, sqftPerBox);
    if e.boxesNeeded.Some? {
      CeilDivIsLeastCover(e.totalSqft.value, sqftPerBox);
    }
  }

  /** The estimate contract leaves no freedom: the post-calculation is its only solution. */
  lemma ContractDeterminesEstimate(e: Estimate, f: ModelFields, wastePct: real, sqftPerBox: real)
    requires MeetsContract(e, f, wastePct, sqftPerBox)
    ensures e == PostCalc(f, wastePct, sqftPerBox)
  {
    var p := PostCalc(f, wastePct, sqftPerBox);
    if e.boxesNeeded.Some? {
      LeastCoverIsCeilDiv(e.boxesNeeded.value, e.totalSqft.value, sqftPerBox);
    }
    assert e.boxesNeeded == p.boxesNeeded;
  }

  /** With a subtotal and a positive box size, the box count is the least whole number
      of boxes that holds the total. */
  lemma BoxesAreLeastCover(f: ModelFields, wastePct: real, sqftPerBox: real, m: int)
    requires f.subtotal.Some? && sqftPerBox > 0.0
    requires m as real * sqftPerBox >= PostCalc(f, wastePct, sqftPerBox).totalSqft.value
    ensures PostCalc(f, wastePct, sqftPerBox).boxesNeeded.Some?
    ensures IsLeastCover(PostCalc(f, wastePct, sqftPerBox).boxesNeeded.value,
                         PostCalc(f, wastePct, sqftPerBox).totalSqft.value, sqftPerBox)
    ensures PostCalc(f, wastePct, sqftPerBox).boxesNeeded.value <= m
  {
    var e := PostCalc(f, wastePct, sqftPerBox);
    CeilDivIsLeastCover(e.totalSqft.value, sqftPerBox);
    LeastCoverIsMinimal(e.boxesNeeded.value, m, e.totalSqft.value, sqftPerBox);
  }

  /** For a non-negative subtotal, a larger waste percentage never needs fewer boxes. */
  lemma MoreWasteNeverFewerBoxes(f: ModelFields, w1: real, w2: real, sqftPerBox: real)
    requires f.subtotal.Some? && f.subtotal.value >= 0.0 && sqftPerBox > 0.0
    requires w1 <= w2
    ensures PostCalc(f, w1, sqftPerBox).boxesNeeded.value <= PostCalc(f, w2, sqftPerBox).boxesNeeded.value
  {
    var s := f.subtotal.value;
    var t1 := PostCalc(f, w1, sqftPerBox).totalSqft.value;
    var t2 := PostCalc(f, w2, sqftPerBox).totalSqft.value;
    assert t2 - t1 == s * ((w2 - w1) / 100.0);
    assert t1 <= t2;
    ScaleMonotone(t1 / sqftPerBox, t2 / sqftPerBox, sqftPerBox);
    CeilMonotone(t1 / sqftPerBox, t2 / sqftPerBox);
  }

  /** The route handler. `outputText` is the upstream response's `output_text`;
      `parse` stands for `JSON.parse` followed by the field reads, `None` when it throws. */
  function HandleEstimate(form: EstimateForm, outputText: Option<string>, parse: string -> Option<ModelFields>): (r: EstimateResponse)
    ensures !form.hasFile ==> r == EstimateResponse(400, PlainText(MissingFileText))
    ensures r.status in {200, 400, 500}
    ensures r.body.Result? <==> r.status == 200
    ensures form.hasFile && parse(outputText.GetOr("")).None? ==> r.status == 500
    ensures r.status == 200 <==> form.hasFile && parse(outputText.GetOr("")).Some?
    ensures r.status == 500 ==>
      && r.body.InvalidJson?
      && r.body.error == InvalidJsonError
      && r.body.raw <= outputText.GetOr("")
      && |r.body.raw| == if |outputText.GetOr("")| <= RawLimit then |outputText.GetOr("")| else RawLimit
    ensures r.status == 200 ==>
      MeetsContract(r.body.estimate, parse(outputText.GetOr("")).value,
                    FormNumber(form.wastePct), FormNumber(form.sqftPerBox))
  {
    if !form.hasFile then
      EstimateResponse(400, PlainText(MissingFileText))
    else
      var wastePct := FormNumber(form.wastePct);
      var sqftPerBox := FormNumber(form.sqftPerBox);
      var outText := outputText.GetOr("");
      match parse(outText)
      case None => EstimateResponse(500, InvalidJson(InvalidJsonError, Prefix(outText, RawLimit)))
      case Some(f) =>
        PostCalcMeetsContract(f, wastePct, sqftPerBox);
        EstimateResponse(200, Result(PostCalc(f, wastePct, sqftPerBox)))
  }

  /** A missing file is answered before, and independently of, anything the model would say. */
  lemma MissingFileIgnoresModel(form: EstimateForm, o1: Option<string>, p1: string -> Option<ModelFields>,
                                o2: Option<string>, p2: string -> Option<ModelFields>)
    requires !form.hasFile
    ensures HandleEstimate(form, o1, p1) == HandleEstimate(form, o2, p2)
    ensures HandleEstimate(form, o1, p1).status == 400
  {
  }
}
