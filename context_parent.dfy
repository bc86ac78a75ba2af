/**
 * The search for the context an editor belongs to, written the same way in
 * npm_package/src/hooks/context/utils/get-nearest-context-parent-promise.ts and in
 * npm_package/src/hooks/context/context.ts: starting at the element itself, follow `parentElement`
 * until an element carries the `cke-context` attribute, and wait in the contexts registry for the
 * entry named by that element's id.
 */
module ContextParents {
  import opened Wrappers
  import opened RegistrySpec
  import opened AsyncRegistries

  /** The parts of an `HTMLElement` the search reads. */
  class DomElement {
    const id: string
    /** `hasAttribute('cke-context')`. */
    const hasContextAttr: bool
    var parentElement: DomElement?

    constructor (id: string, hasContextAttr: bool, parentElement: DomElement?)
      ensures this.id == id && this.hasContextAttr == hasContextAttr && this.parentElement == parentElement
    {
      this.id := id;
      this.hasContextAttr := hasContextAttr;
      this.parentElement := parentElement;
    }
  }

  /**
   * `chain` is `el` followed by its ancestors up to the root: each element's `parentElement` is the
   * next one, and the last has none.
   */
  ghost predicate IsChain(el: DomElement, chain: seq<DomElement>)
    reads set e | e in chain
  {
    && |chain| > 0
    && chain[0] == el
    && (forall i :: 0 <= i < |chain| - 1 ==> chain[i].parentElement == chain[i + 1])
    && chain[|chain| - 1].parentElement == null
  }

  /** The first element of `chain` with the `cke-context` attribute, if any. */
  function FirstContext(chain: seq<DomElement>): (r: Option<DomElement>)
  {
    if chain == [] then None
    else if chain[0].hasContextAttr then Some(chain[0])
    else FirstContext(chain[1..])
  }

  /**
   * `FirstContext` is the nearest context element: it is on the chain, carries the attribute, and no
   * element before it does; and it is absent exactly when no element of the chain carries the attribute.
   */
  lemma {:induction false} FirstContextIsNearest(chain: seq<DomElement>)
    ensures FirstContext(chain).None? <==> forall i :: 0 <= i < |chain| ==> !chain[i].hasContextAttr
    ensures FirstContext(chain).Some? ==>
              exists k :: 0 <= k < |chain| && chain[k] == FirstContext(chain).value && chain[k].hasContextAttr
                          && forall i :: 0 <= i < k ==> !chain[i].hasContextAttr
  {
    if chain != [] && !chain[0].hasContextAttr {
      FirstContextIsNearest(chain[1..]);
      if FirstContext(chain).Some? {
        var k :| 0 <= k < |chain[1..]| && chain[1..][k] == FirstContext(chain[1..]).value
                 && chain[1..][k].hasContextAttr && forall i :: 0 <= i < k ==> !chain[1..][i].hasContextAttr;
        assert chain[k + 1] == FirstContext(chain).value;
        assert forall i :: 0 <= i < k + 1 ==> !chain[i].hasContextAttr by {
          forall i | 0 <= i < k + 1
            ensures !chain[i].hasContextAttr
          {
            if i > 0 {
              assert chain[i] == chain[1..][i - 1];
            }
          }
        }
      } else {
        assert forall i :: 0 <= i < |chain| ==> !chain[i].hasContextAttr by {
          forall i | 0 <= i < |chain|
            ensures !chain[i].hasContextAttr
          {
            if i > 0 {
              assert chain[i] == chain[1..][i - 1];
            }
          }
        }
      }
    } else if chain != [] {
      assert chain[0] == FirstContext(chain).value;
    }
  }

  /** The element itself is found when it carries the attribute: the search starts at `el`, not above it. */
  lemma SearchStartsAtElement(el: DomElement, chain: seq<DomElement>)
    requires |chain| > 0 && chain[0] == el && el.hasContextAttr
    ensures FirstContext(chain) == Some(el)
  {
  }

  /**
   * `getNearestContextParent(el)`: walks `parentElement` from `el` and returns the first element with
   * the attribute, or `null` once the chain is exhausted.
   */
  method GetNearestContextParent(el: DomElement, ghost chain: seq<DomElement>) returns (r: DomElement?)
    requires IsChain(el, chain)
    ensures r == (if FirstContext(chain).Some? then FirstContext(chain).value else null)
  {
    var parent: DomElement? := el;
    ghost var i := 0;
    while parent != null
      invariant 0 <= i <= |chain|
      invariant i < |chain| ==> parent == chain[i]
      invariant i == |chain| ==> parent == null
      invariant FirstContext(chain) == FirstContext(chain[i..])
      decreases |chain| - i
    {
      assert chain[i..] == [chain[i]] + chain[i + 1..];
      if parent.hasContextAttr {
        return parent;
      }
      parent := parent.parentElement;
      i := i + 1;
    }
    assert chain[i..] == [];
    return null;
  }

  /**
   * `getNearestContextParentPromise(el)`: `None` (the promise of `null`) without touching the registry
   * when there is no context element; otherwise `Some(promise)` after `waitFor(parent.id)` has been
   * called on the registry with the promise's callbacks.
   */
  method GetNearestContextParentPromise(el: DomElement, ghost chain: seq<DomElement>, contexts: AsyncRegistry,
                                        promise: nat) returns (r: Option<nat>)
    requires IsChain(el, chain) && contexts.Valid()
    modifies contexts
    ensures contexts.Valid()
    ensures FirstContext(chain).None? ==> r == None && contexts.State() == old(contexts.State())
    ensures FirstContext(chain).Some? ==>
              r == Some(promise)
              && contexts.State() == WaitFor(old(contexts.State()), Id(FirstContext(chain).value.id), promise)
  {
    var parent := GetNearestContextParent(el, chain);
    if parent == null {
      return None;
    }
    contexts.WaitFor(Id(parent.id), promise);
    r := Some(promise);
  }
}
