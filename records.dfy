/** The rows the analysis works on, before and after classification. */
module Records {

  /** One policy row with the five canonical columns (every cell a non-null string). */
  datatype Row = Row(division: string, customer: string, lob: string, carrier: string, policy: string)

  /** The values of the "Account Type" and "Carrier Account Type" columns. */
  datatype AccountType = Monoline | CrossSold

  /** The text the source writes into the frame for each account type. */
  function Label(t: AccountType): string {
    match t
    case Monoline => "Monoline"
    case CrossSold => "Cross-Sold"
  }

  /** The two labels differ, so a test against "Cross-Sold" recognises exactly the cross-sold type. */
  lemma LabelCrossSoldIff(t: AccountType)
    ensures Label(t) == "Cross-Sold" <==> t == CrossSold
    ensures Label(t) == "Monoline" <==> t == Monoline
  {
    assert "Monoline" != "Cross-Sold";
  }

  /** A row with its two derived columns. */
  datatype ClassifiedRow = ClassifiedRow(row: Row, accountType: AccountType, carrierType: AccountType)

  /** Which of the two derived columns is meant. */
  datatype Level = AgencyLevel | CarrierLevel

  function TypeAt(r: ClassifiedRow, level: Level): AccountType {
    match level
    case AgencyLevel => r.accountType
    case CarrierLevel => r.carrierType
  }
}
