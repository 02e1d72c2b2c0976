/** The record shape shared by the ledger, the store and the extractor
    (src/types/index.ts), with money held as exact integer cents. */
module Types {

  datatype Option<+T> = None | Some(value: T)

  /** The `type` field of a transaction: 'income' | 'expense'. */
  datatype Kind = Income | Expense

  /** One stored row. `amount` is whatever the store returned, in cents; nothing
      in the program forces it to be non-negative. */
  datatype Transaction = Transaction(
    id: string,
    createdAt: string,
    amount: int,
    category: string,
    description: string,
    kind: Kind,
    userId: string)
}
