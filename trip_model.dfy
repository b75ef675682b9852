/** Trip records as the core hands them to the writer. */
module TripModels {
  import opened Wrappers
  import opened FareStore

  datatype TripStatus = Completed | Cancelled | Incomplete

  /**
   * One reconstructed trip. `finished == None` is a trip that never closed.
   * `chargeAmount == None` is a fare that was not found: the source still creates
   * the trip and writes the text "null" into the charge field.
   */
  datatype TripModel = TripModel(
    started: Option<int>,
    finished: Option<int>,
    durationSecs: int,
    fromStopId: string,
    toStopId: string,
    chargeAmount: Option<Price>,
    companyId: string,
    busId: string,
    pan: string,
    status: TripStatus)
}
