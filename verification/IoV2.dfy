/** The request protocol shared by the interconnect components. */
module IoV2 {

  datatype Option<+T> = None | Some(value: T)

  /** What `req()` returns: completed inline, accepted with a later `resp()`, or refused until `retry()`. */
  datatype ReqStatus = Done | Granted | Denied

  datatype RespStatus = Ok | Invalid

  datatype Opcode = Read | Write | Atomic(op: nat)

  /** A master's request. */
  datatype Request = Request(id: nat, addr: nat, size: nat, opcode: Opcode)

  /** A bound slave's answer to one `req()`: latency and status count only when it is `Done`. */
  datatype Answer = Answer(status: ReqStatus, latency: int, resp: RespStatus)

  /** What a component tells its master through its own slave port. */
  datatype Upstream = Resp(id: nat) | Retry

  /** The environment: a bound slave is free to answer anything. */
  method SlaveAnswers() returns (a: Answer) {
    a := *;
  }

  function Min(a: int, b: int): int { if a < b then a else b }

  function Max(a: int, b: int): int { if a > b then a else b }
}
