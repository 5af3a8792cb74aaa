/** What the network does to a call. */
module Faults {
  import opened Options

  /** Nothing, the request is lost, or the request takes effect but its response is lost. */
  datatype Fault = Healthy | Unavailable | ResponseLost

  /** Calls beyond the listed ones are healthy. */
  function FirstFault(faults: seq<Fault>): Fault {
    if faults == [] then Healthy else faults[0]
  }

  function LaterFaults(faults: seq<Fault>): seq<Fault> {
    if faults == [] then [] else faults[1..]
  }

  /** What the caller hears of a call with the given result. */
  function Heard<T, E>(f: Fault, result: Result<T, E>, onFault: E): Result<T, E> {
    if f.Healthy? then result else Err(onFault)
  }
}
