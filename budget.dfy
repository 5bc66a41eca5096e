/** The records exchanged by the budget services. Amounts are exact reals
    (currency units; a positive purchase amount is money spent). A purchase's
    date is a calendar date: the ISO `YYYY-MM-DD` text the records carry is
    produced and read at the storage boundary. */
module BudgetModel {
  import opened Calendar

  datatype Purchase = Purchase(date: CalendarDate, amount: real, description: string, enabled: bool)

  datatype Budget = Budget(name: string, initialValue: real, monthlyContribution: real, purchases: seq<Purchase>)

  /** One snapshot of the projected balance. */
  datatype DataPoint = DataPoint(date: CalendarDate, balance: real)

  /** The answer of the contribution solver. */
  datatype Suggestion = Suggestion(monthlyAmount: real, totalMonths: int, finalBalance: real)
}
