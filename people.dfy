/**
 * The two records the application passes around (types.ts): a participant
 * and a payment instruction produced by the settlement engine.
 */
module People {

  /** Ids are opaque strings; nothing but equality is ever asked of them. */
  type Id = string

  datatype Person = Person(id: Id, name: string, amountSpent: real)

  /**
   * A payment instruction: `from` pays `to` the (rounded) `amount`. Names need
   * not be unique, so `fromIndex` and `toIndex` record which entries of the
   * participant list the two sides came from.
   */
  datatype Transaction = Transaction(from: string, to: string, amount: real, fromIndex: nat, toIndex: nat)

  /** `people.reduce((sum, p) => sum + p.amountSpent, 0)`. */
  function Total(people: seq<Person>): real
  {
    if people == [] then 0.0 else Total(people[..|people| - 1]) + people[|people| - 1].amountSpent
  }

  /** `totalSpent / people.length`, for a nonempty list. */
  function Average(people: seq<Person>): real
    requires |people| > 0
  {
    Total(people) / |people| as real
  }
}
