/** The worker side: the two calls a worker answers. */
module Workers {
  import opened Common
  import opened Digits

  /** A worker machine, known by its endpoint name. Its listener is not part
      of this model. */
  class Worker {
    const address: string

    constructor (address: string)
      ensures this.address == address
    {
      this.address := address;
    }

    /** Sums the digits of one chunk, byte by byte; always reports success. */
    method DoAddWork(args: DoAddWorkArgs) returns (reply: DoAddWorkReply)
      ensures reply.result == DigitSum(args.bytes)
      ensures reply.success
    {
      var result := 0;
      for i := 0 to |args.bytes|
        invariant result == DigitSum(args.bytes[..i])
      {
        var n := Atoi(RuneString(args.bytes[i])).n;
        AtoiOfByte(args.bytes[i]);
        assert args.bytes[..i + 1][..i] == args.bytes[..i];
        result := result + n;
      }
      assert args.bytes[..|args.bytes|] == args.bytes;
      reply := DoAddWorkReply(result, true);
    }

    /** The readiness probe: this worker is always ready. */
    method PingWorker(args: PingWorkerArgs) returns (reply: PingWorkerReply)
      ensures reply.success
    {
      reply := PingWorkerReply(true);
    }
  }
}
