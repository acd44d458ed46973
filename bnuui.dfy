/**
 * SceneUI (src/bnuui/bnuui.cpp): the three element lists of a scene (the
 * general list, the module-inventory list and the gacha list), their
 * bounds-checked insert and remove, the combined view and the per-frame
 * update.
 */
module Bnuui {
  import opened Buttons

  /** vector::erase at index i: the element at i is gone, the others keep their order. */
  function EraseAt<T>(s: seq<T>, i: nat): (r: seq<T>)
    requires i < |s|
    ensures |r| == |s| - 1
    ensures forall k :: 0 <= k < i ==> r[k] == s[k]
    ensures forall k :: i <= k < |r| ==> r[k] == s[k + 1]
  {
    s[..i] + s[i + 1..]
  }

  /** Erasing leaves the multiset of elements minus exactly the one erased. */
  lemma EraseAtMultiset<T>(s: seq<T>, i: nat)
    requires i < |s|
    ensures multiset(EraseAt(s, i)) == multiset(s) - multiset{s[i]}
  {
    assert s == s[..i] + [s[i]] + s[i + 1..];
  }

  /** The elements SceneUI::update calls doUpdate on: each element, then its direct children. */
  function UpdateOrder(es: seq<Element>): (r: seq<Element>)
    reads es`children
    ensures forall k :: 0 <= k < |es| ==> es[k] in r && forall c :: c in es[k].children ==> c in r
    ensures forall x :: x in r ==> x in es || exists k :: 0 <= k < |es| && x in es[k].children
    decreases |es|
  {
    if es == [] then [] else [es[0]] + es[0].children + UpdateOrder(es[1..])
  }

  /** The elements of es and their direct children. */
  ghost function Reach(es: seq<Element>): set<Element>
    reads es`children
    decreases |es|
  {
    if es == [] then {} else {es[0]} + (set c | c in es[0].children) + Reach(es[1..])
  }

  lemma {:induction false} InReach(es: seq<Element>, i: nat)
    requires i < |es|
    ensures es[i] in Reach(es)
    ensures forall c :: c in es[i].children ==> c in Reach(es)
    decreases i
  {
    if i > 0 {
      InReach(es[1..], i - 1);
    }
  }

  class SceneUI {
    var uiElems: seq<Element>
    var inventoryUiElems: seq<Element>
    var gachaUiElems: seq<Element>

    constructor ()
      ensures uiElems == [] && inventoryUiElems == [] && gachaUiElems == []
    {
      uiElems, inventoryUiElems, gachaUiElems := [], [], [];
    }

    /** insert: append at the end; always succeeds. */
    method Insert(e: Element) returns (ok: bool)
      modifies this
      ensures ok
      ensures uiElems == old(uiElems) + [e]
      ensures inventoryUiElems == old(inventoryUiElems) && gachaUiElems == old(gachaUiElems)
    {
      uiElems := uiElems + [e];
      ok := true;
    }

    /** remove(idx): false and no change when idx is out of range, else erase that element. */
    method Remove(idx: int) returns (ok: bool)
      modifies this
      ensures ok <==> 0 <= idx < |old(uiElems)|
      ensures uiElems == if ok then EraseAt(old(uiElems), idx) else old(uiElems)
      ensures inventoryUiElems == old(inventoryUiElems) && gachaUiElems == old(gachaUiElems)
    {
      if idx < 0 || idx >= |uiElems| {
        return false;
      }
      uiElems := EraseAt(uiElems, idx);
      ok := true;
    }

    /** size: the general list only. */
    method Size() returns (n: int)
      ensures n == |uiElems|
    {
      n := |uiElems|;
    }

    /** getElems: the general list, then the inventory list, then the gacha list. */
    function GetElems(): (r: seq<Element>)
      reads this
      ensures |r| == |uiElems| + |inventoryUiElems| + |gachaUiElems|
      ensures r[..|uiElems|] == uiElems
      ensures r[|uiElems|..|uiElems| + |inventoryUiElems|] == inventoryUiElems
      ensures r[|uiElems| + |inventoryUiElems|..] == gachaUiElems
    {
      var r := uiElems + inventoryUiElems;
      assert r[..|uiElems|] == uiElems;
      r + gachaUiElems
    }

    method InsertModuleInventory(e: Element) returns (ok: bool)
      modifies this
      ensures ok
      ensures inventoryUiElems == old(inventoryUiElems) + [e]
      ensures uiElems == old(uiElems) && gachaUiElems == old(gachaUiElems)
    {
      inventoryUiElems := inventoryUiElems + [e];
      ok := true;
    }

    method RemoveModuleInventory(idx: int) returns (ok: bool)
      modifies this
      ensures ok <==> 0 <= idx < |old(inventoryUiElems)|
      ensures inventoryUiElems == if ok then EraseAt(old(inventoryUiElems), idx) else old(inventoryUiElems)
      ensures uiElems == old(uiElems) && gachaUiElems == old(gachaUiElems)
    {
      if idx < 0 || idx >= |inventoryUiElems| {
        return false;
      }
      inventoryUiElems := EraseAt(inventoryUiElems, idx);
      ok := true;
    }

    method InsertGacha(e: Element) returns (ok: bool)
      modifies this
      ensures ok
      ensures gachaUiElems == old(gachaUiElems) + [e]
      ensures uiElems == old(uiElems) && inventoryUiElems == old(inventoryUiElems)
    {
      gachaUiElems := gachaUiElems + [e];
      ok := true;
    }

    method RemoveGacha(idx: int) returns (ok: bool)
      modifies this
      ensures ok <==> 0 <= idx < |old(gachaUiElems)|
      ensures gachaUiElems == if ok then EraseAt(old(gachaUiElems), idx) else old(gachaUiElems)
      ensures uiElems == old(uiElems) && inventoryUiElems == old(inventoryUiElems)
    {
      if idx < 0 || idx >= |gachaUiElems| {
        return false;
      }
      gachaUiElems := EraseAt(gachaUiElems, idx);
      ok := true;
    }

    /**
     * update(dt): doUpdate on every element of the three lists and on its
     * direct children, in list order, as the trace of calls records.
     */
    method Update(dt: real, ghost trace: seq<Element>) returns (ghost trace': seq<Element>)
      modifies Reach(uiElems)`texture, Reach(uiElems)`timeMs, Reach(uiElems)`calls
      modifies Reach(inventoryUiElems)`texture, Reach(inventoryUiElems)`timeMs, Reach(inventoryUiElems)`calls
      modifies Reach(gachaUiElems)`texture, Reach(gachaUiElems)`timeMs, Reach(gachaUiElems)`calls
      ensures trace' == trace + old(UpdateOrder(uiElems)) + old(UpdateOrder(inventoryUiElems)) + old(UpdateOrder(gachaUiElems))
    {
      ghost var o1, o2, o3 := UpdateOrder(uiElems), UpdateOrder(inventoryUiElems), UpdateOrder(gachaUiElems);
      trace' := UpdateList(uiElems, dt, trace);
      assert UpdateOrder(inventoryUiElems) == o2 && UpdateOrder(gachaUiElems) == o3;
      trace' := UpdateList(inventoryUiElems, dt, trace');
      assert UpdateOrder(gachaUiElems) == o3;
      trace' := UpdateList(gachaUiElems, dt, trace');
    }
  }

  /** UpdateOrder over a snapshot of the children lists. */
  function Flatten(es: seq<Element>, kids: seq<seq<Element>>): seq<Element>
    requires |kids| == |es|
    decreases |es|
  {
    if es == [] then [] else [es[0]] + kids[0] + Flatten(es[1..], kids[1..])
  }

  lemma {:induction false} OrderIsFlatten(es: seq<Element>, kids: seq<seq<Element>>)
    requires |kids| == |es| && forall k :: 0 <= k < |es| ==> es[k].children == kids[k]
    ensures UpdateOrder(es) == Flatten(es, kids)
    decreases |es|
  {
    if es != [] {
      OrderIsFlatten(es[1..], kids[1..]);
    }
  }

  /** Flatten from index i is element i, its children, then Flatten from i + 1. */
  lemma FlattenStep(es: seq<Element>, kids: seq<seq<Element>>, i: nat)
    requires |kids| == |es| && i < |es|
    ensures Flatten(es[i..], kids[i..]) == [es[i]] + kids[i] + Flatten(es[i + 1..], kids[i + 1..])
  {
    assert es[i..][1..] == es[i + 1..] && kids[i..][1..] == kids[i + 1..];
  }

  /** No element is updated twice by one updateElement: the element is not its own child and no child repeats. */
  ghost predicate Separate(elem: Element)
    reads elem
  {
    elem !in elem.children &&
    forall i, j :: 0 <= i < j < |elem.children| ==> elem.children[i] != elem.children[j]
  }

  /** doUpdate has not yet run on e. */
  twostate predicate Untouched(e: Element)
    reads e
  {
    e.texture == old(e.texture) && e.timeMs == old(e.timeMs) && e.calls == old(e.calls)
  }

  /**
   * The updateElement lambda of update: doUpdate on the element, then on
   * each direct child in order. When no element repeats, each ends in the
   * state its own doUpdate gives.
   */
  method UpdateElement(elem: Element, dt: real, ghost trace: seq<Element>) returns (ghost trace': seq<Element>)
    modifies elem`texture, elem`timeMs, elem`calls
    modifies elem.children`texture, elem.children`timeMs, elem.children`calls
    ensures trace' == trace + [elem] + elem.children
    ensures Separate(elem) ==> elem.DidUpdate(dt)
    ensures Separate(elem) ==> forall c :: c in elem.children ==> c.DidUpdate(dt)
  {
    trace' := elem.DoUpdate(dt, trace);
    var j := 0;
    while j < |elem.children|
      invariant 0 <= j <= |elem.children|
      invariant trace' == trace + [elem] + elem.children[..j]
      invariant Separate(elem) ==> elem.DidUpdate(dt)
      invariant Separate(elem) ==> forall k :: 0 <= k < j ==> elem.children[k].DidUpdate(dt)
      invariant Separate(elem) ==> forall k :: j <= k < |elem.children| ==>
                  Untouched(elem.children[k])
    {
      trace' := elem.children[j].DoUpdate(dt, trace');
      j := j + 1;
    }
    assert elem.children[..j] == elem.children;
  }

  /** kids is a snapshot of the children lists of es. */
  ghost predicate ChildrenAre(es: seq<Element>, kids: seq<seq<Element>>)
    reads es
  {
    |kids| == |es| && forall k :: 0 <= k < |es| ==> es[k].children == kids[k]
  }

  /** One round of the loop of update: the updateElement lambda on es[i]. */
  method UpdateAt(es: seq<Element>, ghost kids: seq<seq<Element>>, i: nat, dt: real, ghost trace: seq<Element>)
    returns (ghost trace': seq<Element>)
    requires i < |es| && ChildrenAre(es, kids)
    modifies Reach(es)`texture, Reach(es)`timeMs, Reach(es)`calls
    ensures trace' + Flatten(es[i + 1..], kids[i + 1..]) == trace + Flatten(es[i..], kids[i..])
  {
    FlattenStep(es, kids, i);
    InReach(es, i);
    trace' := UpdateElement(es[i], dt, trace);
  }

  /** The loop of update over one list (the updateElement lambda applied to each element). */
  method UpdateList(es: seq<Element>, dt: real, ghost trace: seq<Element>) returns (ghost trace': seq<Element>)
    modifies Reach(es)`texture, Reach(es)`timeMs, Reach(es)`calls
    ensures trace' == trace + UpdateOrder(es)
  {
    ghost var kids := seq(|es|, k requires 0 <= k < |es| reads es => es[k].children);
    assert ChildrenAre(es, kids);
    trace' := trace;
    var i := 0;
    while i < |es|
      invariant 0 <= i <= |es|
      invariant ChildrenAre(es, kids)
      invariant trace' + Flatten(es[i..], kids[i..]) == trace + Flatten(es, kids)
    {
      trace' := UpdateAt(es, kids, i, dt, trace');
      i := i + 1;
    }
    assert trace' == trace + Flatten(es, kids);
    OrderIsFlatten(es, kids);
  }
}
