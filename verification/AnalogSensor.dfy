/** What every analog sensor answers to a read. */
module AnalogSensor {
  /** The sensor states; Unknown is any other integer. */
  datatype Status = OK | ERROR | OVF | TIMEOUT | Unknown(code: int)

  /**
   * One answer: what the caller's vector holds after the call, the state returned,
   * and the caller's clock right after it.
   */
  datatype Reading<+T> = Reading(value: T, status: Status, time: real)
}
