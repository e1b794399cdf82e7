/** The fields a `DateBuilder` collects before it yields a date. */
module Dates {

  /** Calendar fields as handed over; century expansion and normalisation are not modelled. */
  datatype DateTime = DateTime(year: int, month: int, day: int, hour: int, minute: int, second: int)

  class DateBuilder {
    var year: int
    var month: int
    var day: int
    var hour: int
    var minute: int
    var second: int

    function GetDate(): DateTime
      reads this
    {
      DateTime(year, month, day, hour, minute, second)
    }

    /** A builder starts at the epoch, 1970-01-01 00:00:00. */
    constructor ()
      ensures GetDate() == DateTime(1970, 1, 1, 0, 0, 0)
    {
      year, month, day := 1970, 1, 1;
      hour, minute, second := 0, 0, 0;
    }

    method SetTime(hour: int, minute: int, second: int)
      modifies this
      ensures GetDate() == old(GetDate()).(hour := hour, minute := minute, second := second)
    {
      this.hour, this.minute, this.second := hour, minute, second;
    }

    /** Takes the date in wire order, day first, and stores it as year, month, day. */
    method SetDateReverse(day: int, month: int, year: int)
      modifies this
      ensures GetDate() == old(GetDate()).(year := year, month := month, day := day)
    {
      this.year, this.month, this.day := year, month, day;
    }
  }
}
