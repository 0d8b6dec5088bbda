/**
 Payloads, each within the interface limit, whose merge is beyond it.
 */
module InterfaceLimit {
  import opened Flux
  import opened NodeReadings
  import opened NodeDomain
  import opened SingleRows

  /** The queries succeed, and their merged result gives some node more interfaces than the limit. */
  ghost predicate GathersTooMany(rd: Reader, policy: Policy, payloads: seq<Payload>) {
    exists sources, node ::
      Gathers(rd, policy, payloads, sources) && InterfaceCount(MergeSources(sources), node) > policy.maxInterfaces
  }

  /** Two queries, each answered with one legible row about another interface of the same node: with
      a limit of one interface both are accepted, and their merge has two. */
  lemma MergeCanExceedLimit(rd: Reader, policy: Policy, a: Cells, b: Cells, x: string, y: string, v: real, w: real)
    requires policy.maxInterfaces == 1 && a.node == b.node && x != y
    requires Legible(rd, a, v) && IsAbout(rd, policy, a, Received(x))
    requires Legible(rd, b, w) && IsAbout(rd, policy, b, Received(y))
    ensures GathersTooMany(rd, policy, [OneRow(a), OneRow(b)])
  {
    var first, second := OnlyAbout(a.node, Received(x), v), OnlyAbout(a.node, Received(y), w);
    OneRowParses(rd, policy, a, Received(x), v);
    OneRowParses(rd, policy, b, Received(y), w);
    MergeFirst(a.node, Received(x), v);
    TwoRecords(a.node, x, y, v, w);
    TwoTooMany(rd, policy, OneRow(a), OneRow(b), first, second, a.node);
  }

  lemma TwoTooMany(rd: Reader, policy: Policy, p: Payload, q: Payload, first: Records, second: Records, node: string)
    requires Parsed(rd, policy, p, first) && Parsed(rd, policy, q, second)
    requires AllMergeable(map[], first) && Merged(map[], first) == first && AllMergeable(first, second)
    requires InterfaceCount(first, node) + InterfaceCount(second, node) > policy.maxInterfaces
    ensures GathersTooMany(rd, policy, [p, q])
  {
    TwoGather(rd, policy, p, q, first, second);
    TwoTotal(first, second, node);
    TooMany(rd, policy, [p, q], [first, second], node);
  }

  lemma TooMany(rd: Reader, policy: Policy, payloads: seq<Payload>, sources: seq<Records>, node: string)
    requires Gathers(rd, policy, payloads, sources) && InterfaceTotal(sources, node) > policy.maxInterfaces
    ensures GathersTooMany(rd, policy, payloads)
  {
    InterfacesAddUp(sources, node);
  }

  lemma TwoTotal(first: Records, second: Records, node: string)
    ensures InterfaceTotal([first, second], node) == InterfaceCount(first, node) + InterfaceCount(second, node)
  {
    assert [first, second][..1] == [first] && [first][..0] == [];
    assert InterfaceTotal([first], node) == InterfaceCount(first, node);
  }

  lemma TwoRecords(node: string, x: string, y: string, v: real, w: real)
    requires x != y
    ensures AllMergeable(OnlyAbout(node, Received(x), v), OnlyAbout(node, Received(y), w))
  {
  }
}
