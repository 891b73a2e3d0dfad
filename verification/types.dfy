/** The records of the program (types.ts). Amounts are exact reals. */
module Types {
  import opened Results

  datatype ReceiptItem = ReceiptItem(
    description: string,
    quantity: real,
    unitPrice: Option<real>,
    totalPrice: real
  )

  datatype ReceiptData = ReceiptData(
    vendorName: string,
    transactionDate: string,            // YYYY-MM-DD by convention, not checked
    items: seq<ReceiptItem>,
    subtotal: Option<real>,
    taxAmount: Option<real>,
    totalAmount: real,
    currency: string,
    paymentMethod: Option<string>
  )

  /** An Expense (a receipt with an id and the uploaded file name) with its category. */
  datatype CategorizedExpense = CategorizedExpense(
    receipt: ReceiptData,
    id: string,
    originalImageName: Option<string>,
    category: string
  )

  datatype Threshold = Threshold(category: string, amount: real)

  datatype SavingsInsightItem = SavingsInsightItem(
    category: string,
    observation: string,
    suggestion: string,
    potentialSaving: string
  )

  datatype SavingsInsight = SavingsInsight(insights: seq<SavingsInsightItem>, overallSummary: string)
}
