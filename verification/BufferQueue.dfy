/** The bounded buffer pool and handoff queue between producer threads and the writer. */
module BufferQueue {
  import opened Basics

  const BUFFER_BYTES: nat := 262144
  const POOL_BUFFERS: nat := 64

  /** `origin` is a history variable: the slot whose records the buffer holds. */
  datatype Buffer = Buffer(data: seq<byte>, origin: nat) {
    predicate HasRoom(bytes: nat) {
      |data| + bytes <= BUFFER_BYTES
    }
  }

  /** The value the queue's mutex protects, and its operations as functions on that value. */
  datatype QueueState = QueueState(full: seq<Buffer>, pool: seq<Buffer>, closing: bool) {
    function Submit(b: Buffer): QueueState {
      this.(full := full + [b])
    }

    function Acquire(): QueueState {
      if pool == [] then this else this.(pool := pool[..|pool| - 1])
    }

    function Recycle(b: Buffer): QueueState {
      this.(pool := pool + [b.(data := [])])
    }

    function PopFull(): QueueState
      requires full != []
    {
      this.(full := full[1..])
    }

    function Close(): QueueState {
      this.(closing := true)
    }
  }

  function InitialQueue(): QueueState {
    QueueState([], seq(POOL_BUFFERS, _ => Buffer([], 0)), false)
  }

  /** One pass of `next_full`: a buffer, the end of the stream, or a wait on the condition variable. */
  datatype Polled = Popped(buffer: Buffer) | Finished | MustWait

  class Queue {
    var full: seq<Buffer>
    var pool: seq<Buffer>
    var closing: bool

    function View(): QueueState
      reads this
    {
      QueueState(full, pool, closing)
    }

    constructor ()
      ensures View() == InitialQueue()
    {
      full, closing := [], false;
      var buffers := [];
      for i := 0 to POOL_BUFFERS
        invariant buffers == seq(i, _ => Buffer([], 0))
      {
        buffers := buffers + [Buffer([], 0)];
      }
      pool := buffers;
    }

    method Acquire() returns (r: Option<Buffer>)
      modifies this
      ensures View() == old(View()).Acquire()
      ensures r == if old(pool) == [] then None else Some(old(pool)[|old(pool)| - 1])
    {
      if |pool| == 0 {
        return None;
      }
      r := Some(pool[|pool| - 1]);
      pool := pool[..|pool| - 1];
    }

    method Submit(b: Buffer)
      modifies this
      ensures View() == old(View()).Submit(b)
    {
      full := full + [b];
    }

    method Recycle(b: Buffer)
      modifies this
      ensures View() == old(View()).Recycle(b)
    {
      pool := pool + [b.(data := [])];
    }

    method Poll() returns (r: Polled)
      modifies this
      ensures old(full) != [] ==> r == Popped(old(full)[0]) && View() == old(View()).PopFull()
      ensures old(full) == [] ==> View() == old(View()) && r == if closing then Finished else MustWait
    {
      if |full| > 0 {
        r := Popped(full[0]);
        full := full[1..];
      } else if closing {
        r := Finished;
      } else {
        r := MustWait;
      }
    }

    method Close()
      modifies this
      ensures View() == old(View()).Close()
    {
      closing := true;
    }
  }
}
