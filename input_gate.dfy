/** The checks `POST /run` makes on `req.body.code` before anything is started. */
module InputGate {
  import opened JsValues
  import opened Messages

  /** The ceiling on `code.length`, counted in UTF-16 code units. */
  const MaxCodeUnits := 50_000

  datatype Verdict =
    | Pass(code: JsString)           // handed on to the sandbox
    | Refuse(response: Response)     // answered at once; no process is started

  /**
   * `if (!code || typeof code !== 'string')` rejects with "No code provided";
   * then `if (code.length > 50_000)` rejects with the size-limit message.
   * Stated by kinds of value: only a non-empty string of at most 50 000 units passes.
   */
  function Validate(code: JsValue): (r: Verdict)
    ensures r.Pass? <==> code.Str? && 0 < |code.units| <= MaxCodeUnits
    ensures r.Pass? ==> r.code == code.units
    ensures !code.Str? || code.units == [] ==> r == Refuse(Response(BadRequestStatus, NoCodeMessage))
    ensures code.Str? && |code.units| > MaxCodeUnits ==> r == Refuse(Response(BadRequestStatus, TooLargeMessage))
  {
    if !Truthy(code) || !IsString(code) then
      Refuse(Response(BadRequestStatus, NoCodeMessage))
    else if |code.units| > MaxCodeUnits then
      Refuse(Response(BadRequestStatus, TooLargeMessage))
    else
      Pass(code.units)
  }

  /** A string of exactly the ceiling passes; one unit more is refused for its size. */
  lemma SizeBoundary(s: JsString, u: CodeUnit)
    requires |s| == MaxCodeUnits
    ensures Validate(Str(s)) == Pass(s)
    ensures Validate(Str(s + [u])) == Refuse(Response(BadRequestStatus, TooLargeMessage))
  {
  }
}
