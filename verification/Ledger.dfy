/**
 The kernel's side of buffer ownership: which socket buffers exist, which of them are mapped for
 DMA and with what length, and what became of each one. Every operation is total; one that a kernel
 debug build would complain about (freeing a buffer twice, delivering a buffer the device may still
 write to, unmapping with another length) is counted in `faults` and changes nothing else.
 A buffer is named by its allocation number, and its DMA address is that same number.
 */
module Ledger {
  datatype Option<+T> = None | Some(value: T)

  datatype Fate = Delivered | Freed

  datatype Ledger = Ledger(
    next: nat,                  // number of buffers handed out so far
    live: set<nat>,             // buffers the driver still has to dispose of
    maps: map<nat, nat>,        // DMA mappings: buffer -> mapped length
    fate: map<nat, Fate>,       // what became of every other buffer
    faults: nat)

  const Empty := Ledger(0, {}, map[], map[], 0)

  function Fault(l: Ledger): Ledger {
    l.(faults := l.faults + 1)
  }

  /** A fresh buffer, numbered `l.next`. */
  function Alloc(l: Ledger): Ledger {
    l.(next := l.next + 1, live := l.live + {l.next})
  }

  function Map(l: Ledger, skb: nat, len: nat): Ledger {
    if skb !in l.live || skb in l.maps then Fault(l)
    else l.(maps := l.maps[skb := len])
  }

  function Unmap(l: Ledger, dma: nat, len: nat): Ledger {
    if dma !in l.maps || l.maps[dma] != len then Fault(l)
    else l.(maps := l.maps - {dma})
  }

  function Dispose(l: Ledger, skb: nat, fate: Fate): Ledger {
    if skb !in l.live || skb in l.maps then Fault(l)
    else l.(live := l.live - {skb}, fate := l.fate[skb := fate])
  }

  function Free(l: Ledger, skb: nat): Ledger {
    Dispose(l, skb, Freed)
  }

  function Deliver(l: Ledger, skb: nat): Ledger {
    Dispose(l, skb, Delivered)
  }

  /** No misuse so far, and every buffer ever handed out is live or has exactly one fate. */
  ghost predicate Sound(l: Ledger) {
    && l.faults == 0
    && l.maps.Keys <= l.live
    && l.live !! l.fate.Keys
    && (forall k: nat :: k < l.next <==> k in l.live || k in l.fate)
  }
}
