/** The `coa_data` rows the insights charts read (`id, sender_name, product_name, test_name,
    test_result, coa_date`), and the sentinel labels that stand in for missing values. */
module CoaRows {
  import opened Seqs

  /** The `test_result` column; the database restricts it to these three values or `null`. */
  datatype TestResult = Pass | Fail | UnknownResult

  /** One row as fetched; every column but `id` is nullable. `senderName` is the supplier. */
  datatype Row = Row(
    id: string,
    senderName: Option<string>,
    productName: Option<string>,
    testName: Option<string>,
    testResult: Option<TestResult>,
    coaDate: Option<string>)

  const UnknownSupplier: string := "Unknown Supplier"
  const UnknownProduct: string := "Unknown Product"
  const UnknownTest: string := "Unknown Test"

  /** `x || fallback` on a nullable string: both `null` and the empty string are falsy. */
  function OrElse(x: Option<string>, fallback: string): (r: string)
    ensures r == fallback || (x == Some(r) && r != "")
    ensures fallback != "" ==> r != ""
    ensures x.Some? && x.value != "" ==> r == x.value
  {
    if x.Some? && x.value != "" then x.value else fallback
  }

  /** `row.sender_name || "Unknown Supplier"`, the supplier label used everywhere. */
  function Supplier(row: Row): (r: string)
    ensures r != ""
    ensures row.senderName.Some? && row.senderName.value != "" ==> r == row.senderName.value
    ensures row.senderName == None || row.senderName == Some("") ==> r == UnknownSupplier
  {
    OrElse(row.senderName, UnknownSupplier)
  }

  /** `row.product_name || "Unknown Product"`. */
  function Product(row: Row): (r: string)
    ensures r != ""
    ensures row.productName.Some? && row.productName.value != "" ==> r == row.productName.value
    ensures row.productName == None || row.productName == Some("") ==> r == UnknownProduct
  {
    OrElse(row.productName, UnknownProduct)
  }

  /** `row.test_name || "Unknown Test"`. */
  function Test(row: Row): (r: string)
    ensures r != ""
    ensures row.testName.Some? && row.testName.value != "" ==> r == row.testName.value
    ensures row.testName == None || row.testName == Some("") ==> r == UnknownTest
  {
    OrElse(row.testName, UnknownTest)
  }

  predicate IsFail(row: Row)
  {
    row.testResult == Some(Fail)
  }

  /** A missing and an empty column both get the sentinel label, so rows that differ only in
      that respect are indistinguishable to every option list, filter and chart; and no label is
      ever empty. */
  lemma {:induction false} MissingAndEmptyLabelsCoincide(row: Row)
    ensures Supplier(row.(senderName := None)) == Supplier(row.(senderName := Some(""))) == UnknownSupplier
    ensures Product(row.(productName := None)) == Product(row.(productName := Some(""))) == UnknownProduct
    ensures Test(row.(testName := None)) == Test(row.(testName := Some(""))) == UnknownTest
    ensures Supplier(row) != "" && Product(row) != "" && Test(row) != ""
    ensures row.senderName.Some? && row.senderName.value != "" ==> Supplier(row) == row.senderName.value
    ensures row.productName.Some? && row.productName.value != "" ==> Product(row) == row.productName.value
    ensures row.testName.Some? && row.testName.value != "" ==> Test(row) == row.testName.value
  {
    assert UnknownSupplier != "" && UnknownProduct != "" && UnknownTest != "";
  }
}
