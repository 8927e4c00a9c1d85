/** The records the pages receive from the backend, as far as the core reads them. */
module Entities {
  import opened Wrappers
  import opened Js

  /**
   * An active rent. `expectedReturnDate` is in milliseconds since the epoch (None when
   * the backend sends none); `daysOverdue` is the backend's count (None when absent).
   */
  datatype Rent = Rent(id: JsVal, gameId: JsVal, rentalType: string,
                       expectedReturnDate: Option<int>, daysOverdue: Option<int>)

  /** A catalog title: its id (number or numeric string), title and stock count. */
  datatype Game = Game(id: JsVal, title: string, quantity: Option<int>)
}
