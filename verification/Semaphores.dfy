/** One semaphore as a value: its count and the processes waiting on it, oldest first. The kernel
    calls and the port and buffer-pool models all use these transitions. */
module Semaphores {
  import opened QueueTable

  datatype Sem = Sem(used: bool, count: int, queue: seq<Pid>)

  function Max0(n: int): (m: nat) { if n < 0 then 0 else n }

  /** What holds of a semaphore between calls: a negative count says how many wait. */
  ghost predicate Balanced(s: Sem) {
    |s.queue| == if s.used then Max0(-s.count) else 0
  }

  predicate Blocks(s: Sem) { s.count - 1 < 0 }

  /** wait: decrement, and join the queue when the count goes negative. */
  function Down(s: Sem, p: Pid): (r: Sem)
    ensures Balanced(s) && s.used ==> Balanced(r)
  {
    s.(count := s.count - 1, queue := if Blocks(s) then s.queue + [p] else s.queue)
  }

  /** The process signal releases, if any. */
  function Released(s: Sem): (r: seq<Pid>)
    ensures |r| <= 1
    ensures Balanced(s) && s.used && s.count < 0 ==> |r| == 1
  {
    if s.count < 0 && s.queue != [] then [s.queue[0]] else []
  }

  /** signal: increment, and let the oldest waiter go when the count was negative. */
  function Up(s: Sem): (r: Sem)
    ensures Balanced(s) && s.used ==> Balanced(r)
    ensures s.queue == Released(s) + r.queue && r.used == s.used
  {
    s.(count := s.count + 1, queue := if Released(s) == [] then s.queue else s.queue[1..])
  }

  /** n signals in a row. */
  function UpN(s: Sem, n: nat): (r: Sem)
    ensures r.used == s.used
    decreases n
  {
    if n == 0 then s else UpN(Up(s), n - 1)
  }

  function Min(a: nat, b: nat): nat { if a < b then a else b }

  /** n signals at once: the count rises by n and the n oldest waiters, if so many, are gone. */
  lemma {:induction false} UpNIs(s: Sem, n: nat)
    requires Balanced(s) && s.used
    ensures UpN(s, n) == Sem(true, s.count + n, s.queue[Min(n, |s.queue|)..])
    decreases n
  {
    if n > 0 {
      UpNIs(Up(s), n - 1);
      assert Up(s).queue[Min(n - 1, |Up(s).queue|)..] == s.queue[Min(n, |s.queue|)..];
    }
  }
}
