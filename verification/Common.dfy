/** Types shared by the models of the indexer's packages. */
module Common {

  datatype Option<+T> = None | Some(value: T)

  newtype byte = i: int | 0 <= i < 256

  type Bytes = seq<byte>

  /** Decimal digits, most significant first; none for zero. */
  function Digits(n: nat): string {
    if n == 0 then "" else Digits(n / 10) + ['0' + (n % 10) as char]
  }
}

/** A tenant's authorization boundary (internal/store/scope.go). */
module Scopes {
  datatype Scope = Wildcard | Contracts(ids: seq<string>)

  predicate Allows(scope: Scope, contractID: string) {
    scope.Wildcard? || contractID in scope.ids
  }
}
