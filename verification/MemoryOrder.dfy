/**
 Payloads, each acceptable on its own, whose merge has more memory used than there is.
 */
module MemoryOrder {
  import opened Flux
  import opened NodeReadings
  import opened NodeDomain
  import opened SingleRows

  /** Some node has more memory used than there is. */
  ghost predicate Disordered(records: Records) {
    exists n :: n in records && !MemoryInOrder(records[n])
  }

  /** The queries succeed, and their merged result is disordered. */
  ghost predicate GathersDisorder(rd: Reader, policy: Policy, payloads: seq<Payload>) {
    exists sources :: Gathers(rd, policy, payloads, sources) && Disordered(MergeSources(sources))
  }

  /** Two queries, each answered with one legible row about the memory of the same node, merge into a
      record with more memory used than there is whenever the total is the smaller amount. */
  lemma MergeCanDisorderMemory(rd: Reader, policy: Policy, u: Cells, t: Cells, used: real, total: real)
    requires 1 <= policy.maxInterfaces <= 128 && u.node == t.node && total < used
    requires Legible(rd, u, used) && IsAbout(rd, policy, u, MemUsed)
    requires Legible(rd, t, total) && IsAbout(rd, policy, t, MemTotal)
    ensures GathersDisorder(rd, policy, [OneRow(u), OneRow(t)])
  {
    var first, second := OnlyAbout(u.node, MemUsed, used), OnlyAbout(u.node, MemTotal, total);
    OneRowParses(rd, policy, u, MemUsed, used);
    OneRowParses(rd, policy, t, MemTotal, total);
    MergeFirst(u.node, MemUsed, used);
    TwoRecords(u.node, used, total);
    TwoDisorder(rd, policy, OneRow(u), OneRow(t), first, second);
  }

  lemma TwoDisorder(rd: Reader, policy: Policy, p: Payload, q: Payload, first: Records, second: Records)
    requires Parsed(rd, policy, p, first) && Parsed(rd, policy, q, second)
    requires AllMergeable(map[], first) && Merged(map[], first) == first
    requires AllMergeable(first, second) && Disordered(Merged(first, second))
    ensures GathersDisorder(rd, policy, [p, q])
  {
    TwoGather(rd, policy, p, q, first, second);
  }

  lemma TwoRecords(node: string, used: real, total: real)
    requires total < used
    ensures AllMergeable(OnlyAbout(node, MemUsed, used), OnlyAbout(node, MemTotal, total))
    ensures Disordered(Merged(OnlyAbout(node, MemUsed, used), OnlyAbout(node, MemTotal, total)))
  {
    assert !MemoryInOrder(Merged(OnlyAbout(node, MemUsed, used), OnlyAbout(node, MemTotal, total))[node]);
  }
}
