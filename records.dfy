/** One row of the price table as the dashboard's callbacks read it. */
module Records {
  import opened Wrappers

  /**
   * The five columns the filters and charts use. A missing text cell is `None` (pandas' NaN), a
   * missing or coerced collection date is `None` (NaT); dates are order-preserving day numbers
   * (`Dates.Key`), prices exact decimals.
   */
  datatype Record = Record(
    regiao: Option<string>,
    uf: Option<string>,
    dataColeta: Option<int>,
    valorVenda: real,
    bandeira: Option<string>)
}
