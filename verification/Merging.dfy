/**
 Merging one map into another, entry by entry and in any order, with a partial combination
 of the values: `can` says when two values may be combined and `combine` what they give.
 An entry that the target lacks counts as `none`.
 */
module Merging {

  function At<R>(m: map<string, R>, id: string, none: R): R {
    if id in m then m[id] else none
  }

  ghost predicate CanMerge<R>(target: map<string, R>, source: map<string, R>, none: R, can: (R, R) -> bool) {
    forall id :: id in source ==> can(At(target, id, none), source[id])
  }

  function Merge<R>(target: map<string, R>, source: map<string, R>, none: R, combine: (R, R) -> R): map<string, R> {
    map id | id in target.Keys + source.Keys :: if id in source then combine(At(target, id, none), source[id])
      else target[id]
  }

  /** The value under `id` while the entries of `todo` remain to be merged. */
  function Between<R>(target: map<string, R>, source: map<string, R>, todo: set<string>, id: string, none: R,
                      combine: (R, R) -> R): R {
    if id in source && id !in todo then combine(At(target, id, none), source[id]) else At(target, id, none)
  }

  ghost predicate MergedBut<R>(target: map<string, R>, source: map<string, R>, todo: set<string>,
                               merged: map<string, R>,
                               none: R, can: (R, R) -> bool, combine: (R, R) -> R) {
    && merged.Keys == target.Keys + (source.Keys - todo)
    && (forall id :: id in merged ==> merged[id] == Between(target, source, todo, id, none, combine))
    && (forall id :: id in source && id !in todo ==> can(At(target, id, none), source[id]))
  }

  lemma MergeOneMore<R>(target: map<string, R>, source: map<string, R>, todo: set<string>, merged: map<string, R>,
                        none: R, can: (R, R) -> bool, combine: (R, R) -> R, id: string)
    requires todo <= source.Keys && id in todo && MergedBut(target, source, todo, merged, none, can, combine)
    ensures At(merged, id, none) == At(target, id, none)
    ensures can(At(target, id, none), source[id]) ==>
              MergedBut(target, source, todo - {id}, merged[id := combine(At(target, id, none), source[id])], none, can,
                        combine)
  {
    var merged', todo' := merged[id := combine(At(target, id, none), source[id])], todo - {id};
    assert merged'.Keys == target.Keys + (source.Keys - todo');
    forall i | i in merged' ensures merged'[i] == Between(target, source, todo', i, none, combine) {
      if i != id {
        assert merged[i] == Between(target, source, todo, i, none, combine);
      }
    }
  }

  lemma MergedWhole<R>(target: map<string, R>, source: map<string, R>, merged: map<string, R>,
                       none: R, can: (R, R) -> bool, combine: (R, R) -> R)
    requires MergedBut(target, source, {}, merged, none, can, combine)
    ensures CanMerge(target, source, none, can)
    ensures merged == Merge(target, source, none, combine)
  {
    forall id | id in merged ensures merged[id] == Merge(target, source, none, combine)[id] {
      assert merged[id] == Between(target, source, {}, id, none, combine);
    }
  }
}
