/**
 * frontend/src/pages/RFPDetails.js: the vendor selection of the "Send to
 * Vendors" dialog, sending the RFP to the selection, and when the send button
 * is disabled. The page's React state is the class `RfpDetailsPage`; the
 * outcome of the `sendToVendors` request is a parameter.
 */
module RfpDetailsPage {
  import opened Wrappers
  import opened Ids
  import opened RfpModel

  // ---------------------------------------------------------------------------
  // handleVendorToggle
  // ---------------------------------------------------------------------------

  /** `prev.filter(id => id !== vendorId)`. */
  function Without(s: seq<VendorId>, v: VendorId): (r: seq<VendorId>)
    ensures v !in r
    ensures forall x :: x in r <==> x in s && x != v
    ensures v !in s ==> r == s
    decreases |s|
  {
    if s == [] then []
    else if s[0] == v then Without(s[1..], v)
    else [s[0]] + Without(s[1..], v)
  }

  /** `prev.includes(vendorId) ? prev.filter(...) : [...prev, vendorId]`. */
  function Toggle(s: seq<VendorId>, v: VendorId): (r: seq<VendorId>)
    ensures v in s ==> r == Without(s, v)
    ensures v !in s ==> r == s + [v]
    ensures v in r <==> v !in s
  {
    if v in s then Without(s, v) else s + [v]
  }

  predicate NoDup(s: seq<VendorId>) {
    forall i, j :: 0 <= i < j < |s| ==> s[i] != s[j]
  }

  /** Removing keeps the order of what stays: the result is `s` with `v` dropped wherever it stood. */
  lemma {:induction false} WithoutKeepsOrder(s: seq<VendorId>, v: VendorId, a: seq<VendorId>, b: seq<VendorId>)
    requires s == a + b
    ensures Without(s, v) == Without(a, v) + Without(b, v)
    decreases |a|
  {
    if a != [] {
      assert s[1..] == a[1..] + b;
      WithoutKeepsOrder(s[1..], v, a[1..], b);
    } else {
      assert s == b;
    }
  }

  /** Filtering a duplicate-free selection leaves it duplicate-free. */
  lemma {:induction false} WithoutKeepsNoDup(s: seq<VendorId>, v: VendorId)
    requires NoDup(s)
    ensures NoDup(Without(s, v))
    decreases |s|
  {
    if s != [] {
      assert NoDup(s[1..]) by {
        forall i, j | 0 <= i < j < |s[1..]| ensures s[1..][i] != s[1..][j] {
          assert s[1..][i] == s[i + 1] && s[1..][j] == s[j + 1];
        }
      }
      WithoutKeepsNoDup(s[1..], v);
      if s[0] != v {
        var rest := Without(s[1..], v);
        assert s[0] !in s[1..];
        assert s[0] !in rest;
        forall i, j | 0 <= i < j < |[s[0]] + rest| ensures ([s[0]] + rest)[i] != ([s[0]] + rest)[j] {
          if i == 0 {
            assert ([s[0]] + rest)[j] == rest[j - 1];
          } else {
            assert ([s[0]] + rest)[i] == rest[i - 1] && ([s[0]] + rest)[j] == rest[j - 1];
          }
        }
      }
    }
  }

  /** A duplicate-free selection stays duplicate-free under toggle. */
  lemma ToggleKeepsNoDup(s: seq<VendorId>, v: VendorId)
    requires NoDup(s)
    ensures NoDup(Toggle(s, v))
  {
    if v in s {
      WithoutKeepsNoDup(s, v);
    } else {
      forall i, j | 0 <= i < j < |s + [v]| ensures (s + [v])[i] != (s + [v])[j] {
        if j == |s| {
          assert (s + [v])[i] == s[i];
        }
      }
    }
  }

  /** In a duplicate-free selection, `v` at index `k` is removed and nothing else moves out of order. */
  lemma {:induction false} WithoutSingle(s: seq<VendorId>, v: VendorId, k: nat)
    requires NoDup(s) && k < |s| && s[k] == v
    ensures Without(s, v) == s[..k] + s[k + 1..]
  {
    WithoutKeepsOrder(s, v, s[..k], s[k..]);
    assert s[k..] == [v] + s[k + 1..];
    WithoutKeepsOrder(s[k..], v, [v], s[k + 1..]);
    assert v !in s[..k];
    assert v !in s[k + 1..];
  }

  /** Toggling an unselected vendor twice gives the selection back unchanged. */
  lemma ToggleTwiceUnselected(s: seq<VendorId>, v: VendorId)
    requires v !in s
    ensures Toggle(Toggle(s, v), v) == s
  {
    WithoutKeepsOrder(s + [v], v, s, [v]);
    assert Without([v], v) == [];
  }

  /**
   * When `v` was selected, toggling twice removes it from where it stood and
   * puts it back at the end: the same set of vendors, in a different order
   * unless `v` was last.
   */
  lemma ToggleTwiceSelected(s: seq<VendorId>, v: VendorId, k: nat)
    requires NoDup(s) && k < |s| && s[k] == v
    ensures Toggle(Toggle(s, v), v) == s[..k] + s[k + 1..] + [v]
    ensures k == |s| - 1 ==> Toggle(Toggle(s, v), v) == s
  {
    WithoutSingle(s, v, k);
    if k == |s| - 1 {
      assert s == s[..k] + [s[k]];
    }
  }

  // ---------------------------------------------------------------------------
  // The page
  // ---------------------------------------------------------------------------

  /** The toasts the page shows. */
  datatype Toast = SelectAtLeastOne | SentTo(count: nat) | SendFailed

  /** `rfp.status === 'completed'` on the RFP as the API returns it. */
  function SendDisabled(rfp: Rfp): (disabled: bool)
    ensures disabled <==> rfp.status == Completed
  {
    StatusName(rfp.status) == "completed"
  }

  class RfpDetailsPage {
    var selected: seq<VendorId>
    var showVendorSelection: bool
    var sending: bool
    var toasts: seq<Toast>
    /** How many times `fetchRFPDetails` was called after mounting. */
    var reloads: nat

    constructor ()
      ensures selected == [] && !showVendorSelection && !sending && toasts == [] && reloads == 0
    {
      selected := [];
      showVendorSelection := false;
      sending := false;
      toasts := [];
      reloads := 0;
    }

    /** Clicking "Send to Vendors": a disabled button does nothing. */
    method OpenVendorSelection(rfp: Rfp)
      modifies this
      ensures showVendorSelection == (old(showVendorSelection) || !SendDisabled(rfp))
      ensures selected == old(selected) && sending == old(sending) && toasts == old(toasts) && reloads == old(reloads)
    {
      if !SendDisabled(rfp) {
        showVendorSelection := true;
      }
    }

    /** `handleVendorToggle(vendorId)`. */
    method HandleVendorToggle(v: VendorId)
      modifies this
      ensures selected == Toggle(old(selected), v)
      ensures showVendorSelection == old(showVendorSelection) && sending == old(sending)
      ensures toasts == old(toasts) && reloads == old(reloads)
    {
      selected := Toggle(selected, v);
    }

    /**
     * `handleSendRFP()`: with nothing selected, a toast and no request;
     * otherwise the request carries exactly the selection, `sending` is
     * reset afterwards, and a successful request clears the selection,
     * closes the dialog and reloads the RFP.
     */
    method HandleSendRfp(accepted: bool) returns (request: Option<seq<VendorId>>)
      modifies this
      ensures old(selected) == [] ==>
        && request == None && toasts == old(toasts) + [SelectAtLeastOne]
        && selected == old(selected) && showVendorSelection == old(showVendorSelection)
        && sending == old(sending) && reloads == old(reloads)
      ensures old(selected) != [] ==> request == Some(old(selected)) && !sending
      ensures old(selected) != [] && accepted ==>
        && selected == [] && !showVendorSelection && reloads == old(reloads) + 1
        && toasts == old(toasts) + [SentTo(|old(selected)|)]
      ensures old(selected) != [] && !accepted ==>
        && selected == old(selected) && showVendorSelection == old(showVendorSelection)
        && reloads == old(reloads) && toasts == old(toasts) + [SendFailed]
    {
      if |selected| == 0 {
        toasts := toasts + [SelectAtLeastOne];
        return None;
      }
      sending := true;
      request := Some(selected);
      if accepted {
        toasts := toasts + [SentTo(|selected|)];
        showVendorSelection := false;
        selected := [];
        reloads := reloads + 1;
      } else {
        toasts := toasts + [SendFailed];
      }
      sending := false;
    }
  }
}
