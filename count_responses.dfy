/**
 * Counting of generative answers (`SearchAndSummarizeContent` actions) in a
 * parsed dialog definition: `count_generative_responses_from_yaml` and its
 * inner recursive `count_in_actions`.
 *
 * The YAML document arrives already parsed as a tree of `Node`s. A key a
 * node does not carry reads as `None` (for `kind` and `id`) or as the empty
 * list (for `conditions` and `actions`), as `dict.get` with those defaults does.
 */
module CountResponses {
  import opened Wrappers

  const GenerativeKind: string := "SearchAndSummarizeContent"
  const GroupKind: string := "ConditionGroup"

  /** A node id as read by `get("id")`: absent ids collapse onto the single key `None`. */
  type Id = Option<string>

  /** An action, a condition group or a condition of the dialog tree. */
  datatype Node = Node(kind: Option<string>, id: Id, conditions: seq<Node>, actions: seq<Node>)

  datatype BeginDialog = BeginDialog(actions: Option<seq<Node>>)

  /** The parsed document; `beginDialog` is `None` when the key is absent. */
  datatype Dialog = Dialog(beginDialog: Option<BeginDialog>)

  /** What `count_in_actions` returns: a bare count, or the map of flows of one level. */
  datatype Flow = Count(n: nat) | Flows(entries: map<Id, Entry>)

  /** A value of a flows map: `{}` for a group, `{count, nested_flows}` for a condition. */
  datatype Entry = GroupMarker | ConditionFlow(count: nat, nestedFlows: map<Id, Flow>)

  predicate IsGenerative(n: Node) { n.kind == Some(GenerativeKind) }

  predicate IsGroup(n: Node) { n.kind == Some(GroupKind) }

  /** Number of generative actions directly in `actions` (nested ones excluded). */
  function GenerativeCount(actions: seq<Node>): nat
  {
    if |actions| == 0 then 0
    else GenerativeCount(actions[..|actions| - 1]) + (if IsGenerative(actions[|actions| - 1]) then 1 else 0)
  }

  /** The `flows` dict of one level after its actions have been visited in order. */
  function LevelFlows(actions: seq<Node>): map<Id, Entry>
    decreases actions, 0
  {
    if |actions| == 0 then map[]
    else
      var prev := LevelFlows(actions[..|actions| - 1]);
      var a := actions[|actions| - 1];
      if IsGroup(a) then GroupFlows(prev[a.id := GroupMarker], a.conditions) else prev
  }

  /** `flows` after each condition of a group has written its entry, later ids overwriting earlier ones. */
  function GroupFlows(flows: map<Id, Entry>, conds: seq<Node>): map<Id, Entry>
    decreases conds, 0
  {
    if |conds| == 0 then flows
    else
      var c := conds[|conds| - 1];
      GroupFlows(flows, conds[..|conds| - 1])[c.id := ConditionEntry(c)]
  }

  /** The entry a condition writes: the generative count of its actions and its nested flows. */
  function ConditionEntry(c: Node): Entry
    decreases c.actions, 1
  {
    ConditionFlow(GenerativeCount(c.actions), NestedFlows(c.actions))
  }

  /** `nested_flows` of a condition: each nested group's id mapped to the flow of its `conditions`. */
  function NestedFlows(subs: seq<Node>): map<Id, Flow>
    decreases subs, 0
  {
    if |subs| == 0 then map[]
    else
      var prev := NestedFlows(subs[..|subs| - 1]);
      var sub := subs[|subs| - 1];
      if IsGroup(sub) then prev[sub.id := FlowOf(sub.conditions)] else prev
  }

  /** The value `count_in_actions` returns: the flows when there are any, otherwise the count. */
  function FlowOf(actions: seq<Node>): Flow
    decreases actions, 1
  {
    var flows := LevelFlows(actions);
    if flows != map[] then Flows(flows) else Count(GenerativeCount(actions))
  }

  /** What one call of `count_in_actions` adds to `total_count`, recursion included. */
  function Tally(actions: seq<Node>): nat
    decreases actions
  {
    if |actions| == 0 then 0
    else
      var a := actions[|actions| - 1];
      Tally(actions[..|actions| - 1])
        + (if IsGenerative(a) then 1 else 0)
        + (if IsGroup(a) then ConditionsTally(a.conditions) else 0)
  }

  /** What the conditions of one group add to `total_count`. */
  function ConditionsTally(conds: seq<Node>): nat
    decreases conds
  {
    if |conds| == 0 then 0
    else
      var c := conds[|conds| - 1];
      ConditionsTally(conds[..|conds| - 1]) + GenerativeCount(c.actions) + NestedTally(c.actions)
  }

  /** What the recursive calls for the nested groups among a condition's actions add. */
  function NestedTally(subs: seq<Node>): nat
    decreases subs
  {
    if |subs| == 0 then 0
    else
      var sub := subs[|subs| - 1];
      NestedTally(subs[..|subs| - 1]) + (if IsGroup(sub) then Tally(sub.conditions) else 0)
  }

  /** Every generative node anywhere in the tree, under `conditions` and `actions` alike. */
  function Occurrences(nodes: seq<Node>): nat
    decreases nodes
  {
    if |nodes| == 0 then 0
    else
      var n := nodes[|nodes| - 1];
      Occurrences(nodes[..|nodes| - 1])
        + (if IsGenerative(n) then 1 else 0)
        + Occurrences(n.conditions) + Occurrences(n.actions)
  }

  /** Ids of the condition groups directly in `actions`. */
  function GroupIds(actions: seq<Node>): set<Id>
  {
    set a | a in actions && IsGroup(a) :: a.id
  }

  /** Ids of the conditions of the condition groups directly in `actions`. */
  function ConditionIds(actions: seq<Node>): set<Id>
  {
    set a, c | a in actions && IsGroup(a) && c in a.conditions :: c.id
  }

  /** A group's conditions add exactly their own ids to the flows map. */
  lemma {:induction false} GroupFlowsKeys(flows: map<Id, Entry>, conds: seq<Node>)
    ensures GroupFlows(flows, conds).Keys == flows.Keys + (set c | c in conds :: c.id)
  {
    if |conds| > 0 {
      var prefix, c := conds[..|conds| - 1], conds[|conds| - 1];
      GroupFlowsKeys(flows, prefix);
      assert conds == prefix + [c];
    }
  }

  /** Within a group, the last condition carrying an id decides the entry under that id. */
  lemma {:induction false} GroupFlowsLastWriter(flows: map<Id, Entry>, conds: seq<Node>, j: nat)
    requires j < |conds|
    requires forall l :: j < l < |conds| ==> conds[l].id != conds[j].id
    ensures conds[j].id in GroupFlows(flows, conds)
    ensures GroupFlows(flows, conds)[conds[j].id] == ConditionEntry(conds[j])
  {
    var prefix := conds[..|conds| - 1];
    if j < |conds| - 1 {
      assert prefix[j] == conds[j];
      GroupFlowsLastWriter(flows, prefix, j);
    }
  }

  /** A key that none of a group's conditions carries keeps the entry it had before the group. */
  lemma {:induction false} GroupFlowsUntouched(flows: map<Id, Entry>, conds: seq<Node>, k: Id)
    requires k in flows
    requires forall c :: c in conds ==> c.id != k
    ensures k in GroupFlows(flows, conds) && GroupFlows(flows, conds)[k] == flows[k]
  {
    if |conds| > 0 {
      var prefix := conds[..|conds| - 1];
      assert forall c :: c in prefix ==> c in conds;
      GroupFlowsUntouched(flows, prefix, k);
    }
  }

  /** Every entry a group writes is its marker, an entry from before, or the entry of one of its conditions. */
  lemma {:induction false} GroupFlowsValues(flows: map<Id, Entry>, conds: seq<Node>, k: Id)
    requires k in GroupFlows(flows, conds)
    ensures (k in flows && GroupFlows(flows, conds)[k] == flows[k])
         || (exists c :: c in conds && c.id == k && GroupFlows(flows, conds)[k] == ConditionEntry(c))
  {
    if |conds| > 0 {
      var prefix, c := conds[..|conds| - 1], conds[|conds| - 1];
      if c.id != k {
        GroupFlowsValues(flows, prefix, k);
        assert forall x :: x in prefix ==> x in conds;
      }
    }
  }

  /** The keys of a level's flows: the ids of its groups and of their conditions. */
  lemma {:induction false} LevelFlowsKeys(actions: seq<Node>)
    ensures LevelFlows(actions).Keys == GroupIds(actions) + ConditionIds(actions)
  {
    if |actions| > 0 {
      var prefix, a := actions[..|actions| - 1], actions[|actions| - 1];
      LevelFlowsKeys(prefix);
      assert actions == prefix + [a];
      if IsGroup(a) {
        GroupFlowsKeys(LevelFlows(prefix)[a.id := GroupMarker], a.conditions);
        assert GroupIds(actions) == GroupIds(prefix) + {a.id};
        assert ConditionIds(actions) == ConditionIds(prefix) + (set c | c in a.conditions :: c.id);
      } else {
        assert GroupIds(actions) == GroupIds(prefix);
        assert ConditionIds(actions) == ConditionIds(prefix);
      }
    }
  }

  /** A level has flows exactly when one of its actions is a condition group. */
  lemma LevelFlowsEmpty(actions: seq<Node>)
    ensures LevelFlows(actions) == map[] <==> forall a :: a in actions ==> !IsGroup(a)
  {
    LevelFlowsKeys(actions);
    if a :| a in actions && IsGroup(a) {
      assert a.id in GroupIds(actions);
    }
  }

  /**
   * `count_in_actions` returns a bare count exactly when the level has no
   * condition group, and that count is the level's number of generative actions.
   */
  lemma FlowOfShape(actions: seq<Node>)
    ensures FlowOf(actions).Count? <==> forall a :: a in actions ==> !IsGroup(a)
    ensures FlowOf(actions).Count? ==> FlowOf(actions).n == GenerativeCount(actions)
    ensures FlowOf(actions).Flows? ==> FlowOf(actions).entries.Keys == GroupIds(actions) + ConditionIds(actions)
  {
    LevelFlowsEmpty(actions);
    LevelFlowsKeys(actions);
  }

  /** Each value of a level's flows is a group marker or the entry of a condition carrying that key. */
  lemma {:induction false} LevelFlowsValues(actions: seq<Node>, k: Id)
    requires k in LevelFlows(actions)
    ensures LevelFlows(actions)[k] == GroupMarker
         || exists a, c :: a in actions && IsGroup(a) && c in a.conditions && c.id == k
                           && LevelFlows(actions)[k] == ConditionEntry(c)
  {
    var prefix, a := actions[..|actions| - 1], actions[|actions| - 1];
    assert forall x :: x in prefix ==> x in actions;
    if IsGroup(a) {
      var before := LevelFlows(prefix)[a.id := GroupMarker];
      GroupFlowsValues(before, a.conditions, k);
      if k in before && LevelFlows(actions)[k] == before[k] && k != a.id {
        LevelFlowsValues(prefix, k);
      }
    } else {
      LevelFlowsValues(prefix, k);
    }
  }

  /** A condition's nested flows are keyed by the ids of the condition groups among its actions. */
  lemma {:induction false} NestedFlowsKeys(subs: seq<Node>)
    ensures NestedFlows(subs).Keys == set s | s in subs && IsGroup(s) :: s.id
  {
    if |subs| > 0 {
      var prefix, sub := subs[..|subs| - 1], subs[|subs| - 1];
      NestedFlowsKeys(prefix);
      assert subs == prefix + [sub];
    }
  }

  /** The generative actions of a level still reach `total_count` when the level returns its flows. */
  lemma {:induction false} TallyCountsLevel(actions: seq<Node>)
    ensures GenerativeCount(actions) <= Tally(actions)
  {
    if |actions| > 0 {
      TallyCountsLevel(actions[..|actions| - 1]);
    }
  }

  /** `total_count` never exceeds the number of generative nodes in the tree. */
  lemma {:induction false} TallyAtMostOccurrences(actions: seq<Node>)
    ensures Tally(actions) <= Occurrences(actions)
    decreases actions
  {
    if |actions| > 0 {
      var a := actions[|actions| - 1];
      TallyAtMostOccurrences(actions[..|actions| - 1]);
      if IsGroup(a) {
        ConditionsTallyAtMostOccurrences(a.conditions);
      }
    }
  }

  lemma {:induction false} ConditionsTallyAtMostOccurrences(conds: seq<Node>)
    ensures ConditionsTally(conds) <= Occurrences(conds)
    decreases conds
  {
    if |conds| > 0 {
      var c := conds[|conds| - 1];
      ConditionsTallyAtMostOccurrences(conds[..|conds| - 1]);
      NestedTallyAtMostOccurrences(c.actions);
    }
  }

  lemma {:induction false} NestedTallyAtMostOccurrences(subs: seq<Node>)
    ensures GenerativeCount(subs) + NestedTally(subs) <= Occurrences(subs)
    decreases subs
  {
    if |subs| > 0 {
      var sub := subs[|subs| - 1];
      NestedTallyAtMostOccurrences(subs[..|subs| - 1]);
      if IsGroup(sub) {
        TallyAtMostOccurrences(sub.conditions);
      }
    }
  }

  // ---------------------------------------------------------------------------
  // Overwriting in traversal order
  // ---------------------------------------------------------------------------

  /** A list of dict assignments `m[key] = value`, applied in order. */
  function Apply(m: map<Id, Entry>, writes: seq<(Id, Entry)>): map<Id, Entry>
  {
    if |writes| == 0 then m
    else
      var w := writes[|writes| - 1];
      Apply(m, writes[..|writes| - 1])[w.0 := w.1]
  }

  /** The assignments one group's conditions make, in order. */
  function ConditionWrites(conds: seq<Node>): seq<(Id, Entry)>
  {
    seq(|conds|, j requires 0 <= j < |conds| => (conds[j].id, ConditionEntry(conds[j])))
  }

  /** Every assignment to `flows` one level makes, in traversal order: a group's `{}`, then its conditions' entries. */
  function LevelWrites(actions: seq<Node>): seq<(Id, Entry)>
  {
    if |actions| == 0 then []
    else
      var a := actions[|actions| - 1];
      LevelWrites(actions[..|actions| - 1])
        + (if IsGroup(a) then [(a.id, GroupMarker)] + ConditionWrites(a.conditions) else [])
  }

  lemma {:induction false} ApplyConcat(m: map<Id, Entry>, xs: seq<(Id, Entry)>, ys: seq<(Id, Entry)>)
    ensures Apply(m, xs + ys) == Apply(Apply(m, xs), ys)
  {
    if |ys| > 0 {
      assert (xs + ys)[..|xs + ys| - 1] == xs + ys[..|ys| - 1];
      ApplyConcat(m, xs, ys[..|ys| - 1]);
    } else {
      assert xs + ys == xs;
    }
  }

  /** After a list of assignments, a key holds the value of the last assignment to it. */
  lemma {:induction false} ApplyLastWriter(m: map<Id, Entry>, writes: seq<(Id, Entry)>, w: nat)
    requires w < |writes|
    requires forall l :: w < l < |writes| ==> writes[l].0 != writes[w].0
    ensures writes[w].0 in Apply(m, writes) && Apply(m, writes)[writes[w].0] == writes[w].1
  {
    var prefix := writes[..|writes| - 1];
    if w < |writes| - 1 {
      assert prefix[w] == writes[w];
      ApplyLastWriter(m, prefix, w);
    }
  }

  lemma {:induction false} GroupFlowsApply(flows: map<Id, Entry>, conds: seq<Node>)
    ensures GroupFlows(flows, conds) == Apply(flows, ConditionWrites(conds))
  {
    if |conds| > 0 {
      var prefix := conds[..|conds| - 1];
      GroupFlowsApply(flows, prefix);
      assert ConditionWrites(conds)[..|conds| - 1] == ConditionWrites(prefix);
    }
  }

  /** A level's flows are its assignments applied in traversal order. */
  lemma {:induction false} LevelFlowsApply(actions: seq<Node>)
    ensures LevelFlows(actions) == Apply(map[], LevelWrites(actions))
  {
    if |actions| > 0 {
      var prefix, a := actions[..|actions| - 1], actions[|actions| - 1];
      LevelFlowsApply(prefix);
      if IsGroup(a) {
        var marker: seq<(Id, Entry)> := [(a.id, GroupMarker)];
        GroupFlowsApply(LevelFlows(prefix)[a.id := GroupMarker], a.conditions);
        ApplyConcat(map[], LevelWrites(prefix), marker + ConditionWrites(a.conditions));
        ApplyConcat(Apply(map[], LevelWrites(prefix)), marker, ConditionWrites(a.conditions));
        assert marker[..0] == [];
      } else {
        var none: seq<(Id, Entry)> := [];
        assert LevelWrites(prefix) + none == LevelWrites(prefix);
      }
    }
  }

  /**
   * Across the whole level, the entry under an id is the one written last in
   * traversal order: a group's `{}` or a condition's `{count, nested_flows}`,
   * whichever came later.
   */
  lemma LevelFlowsLastWriter(actions: seq<Node>, w: nat)
    requires w < |LevelWrites(actions)|
    requires forall l :: w < l < |LevelWrites(actions)| ==> LevelWrites(actions)[l].0 != LevelWrites(actions)[w].0
    ensures LevelWrites(actions)[w].0 in LevelFlows(actions)
    ensures LevelFlows(actions)[LevelWrites(actions)[w].0] == LevelWrites(actions)[w].1
  {
    LevelFlowsApply(actions);
    ApplyLastWriter(map[], LevelWrites(actions), w);
  }

  /** In `nested_flows`, the last nested group carrying an id decides the flow under it. */
  lemma {:induction false} NestedFlowsLastWriter(subs: seq<Node>, i: nat)
    requires i < |subs| && IsGroup(subs[i])
    requires forall l :: i < l < |subs| && IsGroup(subs[l]) ==> subs[l].id != subs[i].id
    ensures subs[i].id in NestedFlows(subs)
    ensures NestedFlows(subs)[subs[i].id] == FlowOf(subs[i].conditions)
  {
    var prefix := subs[..|subs| - 1];
    if i < |subs| - 1 {
      assert prefix[i] == subs[i];
      NestedFlowsLastWriter(prefix, i);
    }
  }

  // ---------------------------------------------------------------------------
  // What the traversal never reads
  // ---------------------------------------------------------------------------

  /** Two lists of nodes that agree on everything but the nodes' own `actions`. */
  predicate SameShape(xs: seq<Node>, ys: seq<Node>)
  {
    && |xs| == |ys|
    && forall i :: 0 <= i < |xs| ==>
         xs[i].kind == ys[i].kind && xs[i].id == ys[i].id && xs[i].conditions == ys[i].conditions
  }

  /** A level is read through its nodes' kinds, ids and conditions only; their own `actions` are never visited. */
  lemma {:induction false} LevelIgnoresOwnActions(xs: seq<Node>, ys: seq<Node>)
    requires SameShape(xs, ys)
    ensures LevelFlows(xs) == LevelFlows(ys) && GenerativeCount(xs) == GenerativeCount(ys)
    ensures FlowOf(xs) == FlowOf(ys) && Tally(xs) == Tally(ys)
  {
    if |xs| > 0 {
      LevelIgnoresOwnActions(xs[..|xs| - 1], ys[..|ys| - 1]);
    }
  }

  /**
   * A condition group nested in a condition is recursed into through its
   * `conditions` list read as a level of actions, so the `actions` of those
   * conditions are never visited: replacing them by anything changes neither
   * the condition's count, nor its nested flows, nor what it adds to
   * `total_count`.
   */
  lemma {:induction false} NestedConditionActionsUncounted(subs: seq<Node>, others: seq<Node>)
    requires |subs| == |others|
    requires forall i :: 0 <= i < |subs| ==>
               && subs[i].kind == others[i].kind && subs[i].id == others[i].id
               && SameShape(subs[i].conditions, others[i].conditions)
    ensures GenerativeCount(subs) == GenerativeCount(others)
    ensures NestedFlows(subs) == NestedFlows(others)
    ensures NestedTally(subs) == NestedTally(others)
  {
    if |subs| > 0 {
      var n := |subs| - 1;
      NestedConditionActionsUncounted(subs[..n], others[..n]);
      LevelIgnoresOwnActions(subs[n].conditions, others[n].conditions);
    }
  }

  /** A tree where the quirk loses an answer: the tally is 0 though the tree holds one generative action. */
  lemma UncountedNestedAnswerExample()
    ensures var answer := Node(Some(GenerativeKind), None, [], []);
            var inner := Node(Some(GroupKind), Some("inner"), [Node(None, Some("c2"), [], [answer])], []);
            var outer := Node(Some(GroupKind), Some("outer"), [Node(None, Some("c1"), [], [inner])], []);
            Tally([outer]) == 0 && Occurrences([outer]) == 1
  {
    var answer := Node(Some(GenerativeKind), None, [], []);
    var cond2 := Node(None, Some("c2"), [], [answer]);
    var inner := Node(Some(GroupKind), Some("inner"), [cond2], []);
    var cond1 := Node(None, Some("c1"), [], [inner]);
    var outer := Node(Some(GroupKind), Some("outer"), [cond1], []);
    assert [cond2][..0] == [] && [inner][..0] == [] && [cond1][..0] == [] && [outer][..0] == [];
    assert [answer][..0] == [];
    assert Tally([cond2]) == 0;
    assert NestedTally([inner]) == 0;
    assert GenerativeCount([inner]) == 0;
    assert ConditionsTally([cond1]) == 0;
    assert Occurrences([answer]) == 1;
    assert Occurrences([cond2]) == 1;
    assert Occurrences([inner]) == 1;
    assert Occurrences([cond1]) == 1;
  }

  /** The `result` dict, whose `total_count` the recursive helper updates in place. */
  class Counter {
    var mainFlow: Flow
    var conditions: map<Id, Flow>
    var totalCount: nat

    constructor ()
      ensures mainFlow == Count(0) && conditions == map[] && totalCount == 0
    {
      mainFlow := Count(0);
      conditions := map[];
      totalCount := 0;
    }

    /** `count_in_actions`: returns the flow of `actions` and adds every generative action it visits to `totalCount`. */
    method CountInActions(actions: seq<Node>) returns (r: Flow)
      modifies this`totalCount
      decreases actions
      ensures r == FlowOf(actions)
      ensures totalCount == old(totalCount) + Tally(actions)
    {
      var count := 0;
      var flows: map<Id, Entry> := map[];
      for i := 0 to |actions|
        invariant count == GenerativeCount(actions[..i])
        invariant flows == LevelFlows(actions[..i])
        invariant totalCount == old(totalCount) + Tally(actions[..i])
      {
        var action := actions[i];
        assert actions[..i + 1][..i] == actions[..i];
        if IsGenerative(action) {
          count := count + 1;
          totalCount := totalCount + 1;
        }
        if IsGroup(action) {
          flows := flows[action.id := GroupMarker];
          var conds := action.conditions;
          ghost var base := totalCount;
          for j := 0 to |conds|
            invariant flows == GroupFlows(LevelFlows(actions[..i])[action.id := GroupMarker], conds[..j])
            invariant totalCount == base + ConditionsTally(conds[..j])
          {
            var condition := conds[j];
            assert conds[..j + 1][..j] == conds[..j];
            var subCount := 0;
            var nestedFlows: map<Id, Flow> := map[];
            var subs := condition.actions;
            ghost var before := totalCount;
            for k := 0 to |subs|
              invariant subCount == GenerativeCount(subs[..k])
              invariant nestedFlows == NestedFlows(subs[..k])
              invariant totalCount == before + GenerativeCount(subs[..k]) + NestedTally(subs[..k])
            {
              var sub := subs[k];
              assert subs[..k + 1][..k] == subs[..k];
              if IsGenerative(sub) {
                subCount := subCount + 1;
                totalCount := totalCount + 1;
              }
              if IsGroup(sub) {
                var nested := CountInActions(sub.conditions);
                nestedFlows := nestedFlows[sub.id := nested];
              }
            }
            assert subs[..|subs|] == subs;
            flows := flows[condition.id := ConditionFlow(subCount, nestedFlows)];
          }
          assert conds[..|conds|] == conds;
        }
      }
      assert actions[..|actions|] == actions;
      r := if flows != map[] then Flows(flows) else Count(count);
    }
  }

  /** `count_generative_responses_from_yaml` on an already parsed document. */
  method CountGenerativeResponses(data: Dialog) returns (result: Counter)
    ensures fresh(result)
    ensures result.conditions == map[]
    ensures data.beginDialog.Some? && data.beginDialog.value.actions.Some? ==>
              var actions := data.beginDialog.value.actions.value;
              result.mainFlow == FlowOf(actions) && result.totalCount == Tally(actions)
    ensures !(data.beginDialog.Some? && data.beginDialog.value.actions.Some?) ==>
              result.mainFlow == Count(0) && result.totalCount == 0
  {
    result := new Counter();
    if data.beginDialog.Some? && data.beginDialog.value.actions.Some? {
      var flow := result.CountInActions(data.beginDialog.value.actions.value);
      result.mainFlow := flow;
    }
  }
}
