/** The ledger as the chain sees it: a starting block id and the blocks from there on. */
module LedgerView {
  import opened Numbers
  import opened Outcomes
  import opened ChainTypes

  datatype Ledger = Ledger(start: nat, nodes: seq<ChainNode>) {
    function Next(): nat {
      start + |nodes|
    }

    predicate Has(id: nat) {
      start <= id < Next()
    }

    function At(id: nat): Block
      requires Has(id)
    {
      nodes[id - start].block
    }
  }

  function ReadBlock(l: Ledger, id: nat): Option<ChainNode> {
    if l.Has(id) then Some(l.nodes[id - l.start]) else None
  }

  /** The longer ledger has further blocks behind the same ones. */
  predicate Extends(shorter: Ledger, longer: Ledger) {
    shorter.start == longer.start && shorter.nodes <= longer.nodes
  }

  /** The search loop of `findBlockByTimestamp` between `low` and `high`. */
  function FindFrom(l: Ledger, timestamp: int, low: nat, high: nat): (id: nat)
    requires l.start <= low <= high <= l.Next()
    ensures low <= id <= high
    decreases high - low
  {
    if low == high then low
    else
      var mid := low + (high - low) / 2;
      if l.At(mid).timestamp >= timestamp then FindFrom(l, timestamp, low, mid)
      else FindFrom(l, timestamp, mid + 1, high)
  }

  /** One round of the search. */
  lemma FindFromStep(l: Ledger, timestamp: int, low: nat, high: nat, mid: nat)
    requires l.start <= low < high <= l.Next() && mid == low + (high - low) / 2
    ensures low <= mid < high
    ensures FindFrom(l, timestamp, low, high)
         == if l.At(mid).timestamp >= timestamp then FindFrom(l, timestamp, low, mid) else FindFrom(l, timestamp, mid + 1, high)
  {
  }

  /** The id of the block found, if the search ends inside the ledger. */
  function FindBlockByTimestamp(l: Ledger, timestamp: int): (r: Option<nat>)
    ensures r.Some? ==> l.Has(r.value)
  {
    var id := FindFrom(l, timestamp, l.start, l.Next());
    if id < l.Next() then Some(id) else None
  }

  predicate TimestampsIncrease(l: Ledger) {
    forall i, j | l.start <= i < j < l.Next() :: l.At(i).timestamp < l.At(j).timestamp
  }

  predicate EarlierBelow(l: Ledger, timestamp: int, id: nat)
    requires id <= l.Next()
  {
    forall i | l.start <= i < id :: l.At(i).timestamp < timestamp
  }

  predicate NotEarlierFrom(l: Ledger, timestamp: int, id: nat)
    requires l.start <= id
  {
    forall i | id <= i < l.Next() :: l.At(i).timestamp >= timestamp
  }

  lemma OneComparison(l: Ledger, timestamp: int, mid: nat)
    requires TimestampsIncrease(l) && l.Has(mid)
    ensures if l.At(mid).timestamp >= timestamp then NotEarlierFrom(l, timestamp, mid) else EarlierBelow(l, timestamp, mid + 1)
  {
  }

  lemma {:induction false} FindFromSplits(l: Ledger, timestamp: int, low: nat, high: nat)
    requires l.start <= low <= high <= l.Next() && TimestampsIncrease(l)
    requires EarlierBelow(l, timestamp, low) && NotEarlierFrom(l, timestamp, high)
    ensures EarlierBelow(l, timestamp, FindFrom(l, timestamp, low, high))
    ensures NotEarlierFrom(l, timestamp, FindFrom(l, timestamp, low, high))
    decreases high - low
  {
    hide EarlierBelow;
    hide NotEarlierFrom;
    hide TimestampsIncrease;
    if low < high {
      var mid := low + (high - low) / 2;
      OneComparison(l, timestamp, mid);
      if l.At(mid).timestamp >= timestamp {
        FindFromSplits(l, timestamp, low, mid);
      } else {
        FindFromSplits(l, timestamp, mid + 1, high);
      }
    }
  }

  /** On increasing timestamps the search finds the first block that is not earlier than the timestamp,
      and finds nothing exactly when every block is earlier. */
  lemma FindsFirst(l: Ledger, timestamp: int)
    requires TimestampsIncrease(l)
    ensures var r := FindBlockByTimestamp(l, timestamp);
      && (r.None? <==> forall i | l.Has(i) :: l.At(i).timestamp < timestamp)
      && (r.Some? ==> l.At(r.value).timestamp >= timestamp)
      && (r.Some? ==> forall i | l.start <= i < r.value :: l.At(i).timestamp < timestamp)
  {
    FindFromSplits(l, timestamp, l.start, l.Next());
  }
}
