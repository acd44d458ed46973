/**
 * Decision-tree nodes (include/decisionTrees/decision_node.hpp).
 *
 * A node holds a condition, an optional action and two optional branches.
 * C++ conditions and actions take the context by reference and may change
 * it (and the game state behind it); here both are pure functions that
 * return the new context, and a condition returns its verdict with it.
 */
module DecisionTree {
  import opened Wrappers

  class DecisionNode<C> {
    var condition: C -> (bool, C)
    var performAction: Option<C -> C>
    var yesBranch: DecisionNode?<C>
    var noBranch: DecisionNode?<C>

    /** A new node has its condition and no action and no branches. */
    constructor (cond: C -> (bool, C))
      ensures condition == cond && performAction == None
      ensures yesBranch == null && noBranch == null
    {
      condition := cond;
      performAction := None;
      yesBranch := null;
      noBranch := null;
    }

    /** setBranches: both branches are replaced; nothing else changes. */
    method SetBranches(yes: DecisionNode?<C>, no: DecisionNode?<C>)
      modifies this
      ensures yesBranch == yes && noBranch == no
      ensures condition == old(condition) && performAction == old(performAction)
    {
      yesBranch := yes;
      noBranch := no;
    }

    /** setAction: the action is replaced; nothing else changes. */
    method SetAction(action: C -> C)
      modifies this
      ensures performAction == Some(action)
      ensures condition == old(condition) && yesBranch == old(yesBranch) && noBranch == old(noBranch)
    {
      performAction := Some(action);
    }

    /** The context after the node's action, if it has one. */
    function Acted(ctx: C): C
      reads this
    {
      if performAction.Some? then performAction.value(ctx) else ctx
    }

    /** execute: run the action only if one is set. */
    method Execute(ctx: C) returns (ctx': C)
      ensures performAction.None? ==> ctx' == ctx
      ensures performAction.Some? ==> ctx' == performAction.value(ctx)
    {
      ctx' := ctx;
      if performAction.Some? {
        ctx' := performAction.value(ctx);
      }
    }

    /**
     * decide: run the action (if set) first, then evaluate the condition on
     * the resulting context; the yes branch when it holds, the no branch
     * otherwise.
     */
    method Decide(ctx: C) returns (next: DecisionNode?<C>, ctx': C)
      ensures var r := condition(Acted(ctx));
              ctx' == r.1 && next == (if r.0 then yesBranch else noBranch)
    {
      var c := ctx;
      if performAction.Some? {
        c := Execute(ctx);
      }
      var r := condition(c);
      ctx' := r.1;
      next := if r.0 then yesBranch else noBranch;
    }
  }
}
