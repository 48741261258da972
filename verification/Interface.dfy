// The values that cross component boundaries (src/interface.rs).
module Interface {

  datatype Option<+T> = None | Some(value: T)

  datatype Result<+T, +E> = Ok(value: T) | Err(error: E)

  // Block numbers are `u64` in the program; every theorem below is about
  // numbers that stay under 2^64 - 1, so `nat` is the same thing. The one place
  // where the width shows is `number - 1` at number 0 (see BlockTree.Validate).
  datatype Header = Header(
    number: nat,
    parentHash: string,
    stateRoot: string,
    timestamp: nat,
    nonce: nat,
    hash: string)

  datatype HeadersRequest = HeadersRequest(limit: nat, startBlock: nat)

  datatype Transaction = Transaction(hash: string, from: string, to: string, value: nat, nonce: nat)

  function Min(a: nat, b: nat): nat {
    if a <= b then a else b
  }

  function Max(a: nat, b: nat): nat {
    if a <= b then b else a
  }
}
