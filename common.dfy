/** Values shared by the balancer and its workers: the byte type of the job's
    input and the argument and reply records of the three remote calls. */
module Common {

  /** One byte of the job's input file (Go's `byte`). */
  newtype byte = x: int | 0 <= x < 256

  /** `k` zero bytes: what `make([]byte, k)` holds before anything is read into it. */
  function Zeros(k: nat): (z: seq<byte>)
    ensures |z| == k
    ensures forall i :: 0 <= i < k ==> z[i] == 0
  {
    seq(k, _ => 0)
  }

  /** A worker announcing its endpoint name to the balancer. */
  datatype RegisterArgs = RegisterArgs(worker: string)
  datatype RegisterReply = RegisterReply(success: bool)

  /** The balancer's readiness probe. */
  datatype PingWorkerArgs = PingWorkerArgs(balancer: string)
  datatype PingWorkerReply = PingWorkerReply(success: bool)

  /** One chunk of the input sent to a worker, and the worker's partial result. */
  datatype DoAddWorkArgs = DoAddWorkArgs(balancer: string, bytes: seq<byte>)
  datatype DoAddWorkReply = DoAddWorkReply(result: int, success: bool)
}
