/**
 * src/entities/Booking.ts: the booking request and response shapes, and
 * the copying `exclude` helper.
 */
module BookingEntity {
  import opened JsObjects

  /** BookingRequestDTO: what createBooking receives. */
  datatype BookingRequest = BookingRequest(
    name: string, phoneNo: string, vehicleType: string, licensePlate: string,
    vehicleProblem: string, scheduleId: int, serviceTime: string)

  /** BookingResponseDTO: what createBooking returns. */
  datatype CreatedBooking = CreatedBooking(
    id: int, name: string, phoneNo: string, vehicleType: string, licensePlate: string,
    vehicleProblem: string, scheduleId: int, serviceTime: string, status: string,
    scheduleDate: int, createdAt: int)

  /**
   * `exclude(entity, ...keys)`: a shallow copy of entity (`{ ...entity }`)
   * from which the listed keys are deleted one by one. The argument
   * itself is left as it was: the method may not modify it.
   */
  method Exclude<V>(entity: JsObject<V>, keys: seq<string>) returns (result: JsObject<V>)
    ensures fresh(result)
    ensures result.props == Omit(entity.props, keys)
  {
    result := new JsObject(entity.props);
    for i := 0 to |keys|
      invariant result.props == Omit(entity.props, keys[..i])
    {
      assert keys[..i + 1][..i] == keys[..i];
      result.props := result.props - {keys[i]};
    }
    assert keys[..|keys|] == keys;
  }
}
