/** Fee arithmetic shared by the parent and admin pages: the fee records of
    `student_fees.json`, the outstanding balance and the paid percentage. */
module FeeArithmetic {

  /** A fee record: fee names to whole-rupee amounts. */
  type FeeRecord = map<string, int>

  /** `max(0, due - received)`. */
  function Balance(due: int, received: int): (b: int)
    ensures b >= 0
    ensures b >= due - received
    ensures b == 0 || b == due - received
  {
    if due - received > 0 then due - received else 0
  }

  /** `received / due * 100 if due > 0 else 0` (without the rounding to one or two
      places). */
  function Percentage(received: int, due: int): (p: real)
    ensures due <= 0 ==> p == 0.0
    ensures due > 0 && received >= 0 ==> p >= 0.0
    ensures due > 0 && received >= due ==> p >= 100.0
    ensures due > 0 && received < due ==> p < 100.0
  {
    if due > 0 then (received as real) / (due as real) * 100.0 else 0.0
  }
}
