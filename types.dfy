/** The records the application stores and derives: transactions, persons of a split, category totals, users. */
module Types {
  import opened Wrappers
  import CategoryIcons

  /** The transaction type discriminant, `"positive" | "negative"`. */
  datatype Kind = Positive | Negative

  /** One participant of a collective transaction; `amount` is the text typed into the form. */
  datatype Person = Person(id: string, name: string, amount: string)

  /**
   * A stored transaction. `value` is the display string (for instance
   * `"- R$ 320,00"`); optional fields are `None` when absent.
   */
  datatype Transaction = Transaction(
    id: Option<string>,
    description: string,
    value: string,
    date: string,
    kind: Kind,
    category: Option<string>,
    time: Option<string>,
    paymentMethod: Option<string>,
    notes: Option<string>,
    timestamp: Option<int>,
    installments: Option<int>,
    installmentValue: Option<string>,
    isCollective: Option<bool>,
    people: Option<seq<Person>>)

  /** The aggregated expense of one category, as shown on the dashboard (amounts in cents). */
  datatype CategoryTotal = CategoryTotal(
    id: string,
    name: string,
    total: int,
    formattedTotal: string,
    percentage: int,
    color: string,
    icon: CategoryIcons.Icon)

  /** A registered user; `password` is stored in clear, as the application does. */
  datatype User = User(
    id: string,
    name: string,
    email: string,
    password: string,
    profileImage: Option<string>,
    createdAt: int,
    updatedAt: int)

  /** The part of a user the rest of the application sees. */
  datatype UserProfile = UserProfile(
    id: string,
    name: string,
    email: string,
    profileImage: Option<string>,
    createdAt: int,
    updatedAt: int)
}
