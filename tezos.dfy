/** Vocabulary shared by the contracts of the model: account and contract
    addresses, amounts of tez, and the outcome of an entry-point call. */
module Tezos {

  /** An implicit account or an originated contract. */
  type Address = string

  /** An amount of tez in mutez (the smallest unit). */
  type Mutez = nat

  datatype Option<+T> = None | Some(value: T)

  /** An entry-point call either commits (`Ok`) or fails with an error, in
      which case the whole operation, including every operation it emitted,
      is rolled back. */
  datatype Outcome<+E> = Ok | Fail(error: E)
}
