/** core/buffer_pool.go: a bounded pool of reusable byte buffers. The Go
    channel is a FIFO of capacity `poolSize`, used with non-blocking sends and
    receives. */
module BufferPools {

  import opened Common

  /** `bytes.Buffer`: its contents and the capacity of its backing array. */
  class Buffer {
    var data: Bytes
    var cap: nat

    constructor (cap: nat)
      ensures data == [] && this.cap == cap
    {
      data := [];
      this.cap := cap;
    }

    /** `Reset`: empty, same capacity. */
    method Reset()
      modifies this
      ensures data == [] && cap == old(cap)
    {
      data := [];
    }
  }

  class BufferPool {
    /** The buffers waiting in the channel, oldest first. */
    var queue: seq<Buffer>
    const poolSize: nat
    const bsize: int

    predicate Valid()
      reads this
    {
      |queue| <= poolSize
    }

    /** `NewBufferPool`: making a channel of negative capacity panics. */
    constructor (poolSize: int, buffSize: int)
      requires poolSize >= 0
      ensures Valid()
      ensures queue == [] && this.poolSize == poolSize && bsize == buffSize
    {
      queue := [];
      this.poolSize := poolSize;
      bsize := buffSize;
    }

    /** `Get`: the oldest pooled buffer, or a new empty one of capacity
        `bsize` when the pool is empty (making it panics for a negative
        `bsize`). */
    method Get() returns (buff: Buffer)
      requires Valid()
      requires queue == [] ==> bsize >= 0
      modifies this
      ensures Valid()
      ensures old(queue) != [] ==> buff == old(queue)[0] && queue == old(queue)[1..]
      ensures old(queue) == [] ==> fresh(buff) && buff.data == [] && buff.cap == bsize && queue == []
    {
      if queue != [] {
        buff := queue[0];
        queue := queue[1..];
      } else {
        buff := new Buffer(bsize);
      }
    }

    /** `Recycle`: empty the buffer, then pool it unless the pool is full, in
        which case it is dropped. */
    method Recycle(buff: Buffer)
      requires Valid()
      modifies this, buff
      ensures Valid()
      ensures buff.data == [] && buff.cap == old(buff.cap)
      ensures old(|queue|) < poolSize ==> queue == old(queue) + [buff]
      ensures old(|queue|) >= poolSize ==> queue == old(queue)
    {
      buff.Reset();
      if |queue| < poolSize {
        queue := queue + [buff];
      }
    }
  }
}
