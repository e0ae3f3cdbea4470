/**
  The checkout side of the pipeline: gathering the cost centres of the
  products in the cart into the session key `billing_cost_hide`, copying
  that value onto the order, and showing it on the admin order screen.
 */
module Checkout {
  import opened Php
  import opened Stores

  /** The session key and order meta key the aggregate is kept under. */
  const BillingCostKey: string := "billing_cost_hide"

  /** A cart line; only its product id matters here. */
  datatype CartItem = CartItem(productId: PostId)

  // ---------------------------------------------------------------------
  // populate_billing_cost_field
  // ---------------------------------------------------------------------

  /** What one stored value adds to the accumulated ids: an array adds all
      of its elements, a truthy string adds itself, anything else nothing. */
  function Contribution(v: MetaValue): seq<string>
  {
    match v
    case List(items) => items
    case Scalar(s) => if Truthy(s) then [s] else []
  }

  /** The accumulated ids after the `foreach` over the cart, before
      `array_unique`. */
  function Gathered(cart: seq<CartItem>, store: map<PostId, MetaValue>): seq<string>
  {
    if cart == [] then []
    else Gathered(cart[..|cart| - 1], store) + Contribution(GetPostMeta(store, cart[|cart| - 1].productId))
  }

  /** The value the hook writes to the session: the distinct ids in order of
      first occurrence, joined with ", ". */
  function BillingCostValue(cart: seq<CartItem>, store: map<PostId, MetaValue>): string
  {
    Implode(Unique(Gathered(cart, store)))
  }

  /** The `foreach` loop of `populate_billing_cost_field`. */
  method GatherCostCentres(cart: seq<CartItem>, store: map<PostId, MetaValue>) returns (ids: seq<string>)
    ensures ids == Gathered(cart, store)
  {
    ids := [];
    var i := 0;
    while i < |cart|
      invariant 0 <= i <= |cart|
      invariant ids == Gathered(cart[..i], store)
    {
      var v := GetPostMeta(store, cart[i].productId);
      match v {
        case List(items) =>
          ids := ids + items;
        case Scalar(s) =>
          if Truthy(s) {
            ids := ids + [s];
          }
      }
      assert cart[..i + 1][..i] == cart[..i];
      i := i + 1;
    }
    assert cart[..|cart|] == cart;
  }

  /** `populate_billing_cost_field`: gathers, deduplicates and joins the
      cart's cost centres and stores the result under `billing_cost_hide`. */
  method PopulateBillingCostField(session: Session, cart: seq<CartItem>, meta: ProductMeta)
    modifies session
    ensures session.values == old(session.values)[BillingCostKey := BillingCostValue(cart, meta.centroCostos)]
  {
    var ids := GatherCostCentres(cart, meta.centroCostos);
    ids := Unique(ids);
    var joined := Implode(ids);
    session.values := session.values[BillingCostKey := joined];
  }

  // ---------------------------------------------------------------------
  // Properties of the aggregate
  // ---------------------------------------------------------------------

  /** Gathering over two carts one after the other is gathering over their
      concatenation. */
  lemma {:induction false} GatheredAppend(a: seq<CartItem>, b: seq<CartItem>, store: map<PostId, MetaValue>)
    ensures Gathered(a + b, store) == Gathered(a, store) + Gathered(b, store)
    decreases |b|
  {
    if b != [] {
      var n := |b| - 1;
      assert (a + b)[..|a + b| - 1] == a + b[..n];
      assert (a + b)[|a + b| - 1] == b[n];
      GatheredAppend(a, b[..n], store);
    } else {
      assert a + b == a;
    }
  }

  /** A cart line whose product has no array and no truthy value stored adds
      nothing: removing it leaves the gathered ids unchanged. */
  lemma SkipsLineWithoutAssignment(a: seq<CartItem>, line: CartItem, b: seq<CartItem>,
                                   store: map<PostId, MetaValue>)
    requires GetPostMeta(store, line.productId).Scalar?
    requires !Truthy(GetPostMeta(store, line.productId).s)
    ensures Gathered(a + [line] + b, store) == Gathered(a + b, store)
  {
    GatheredAppend(a + [line], b, store);
    GatheredAppend(a, [line], store);
    GatheredAppend(a, b, store);
    assert Gathered([line], store) == Gathered([], store) + [] by {
      assert [line][..0] == [];
    }
  }

  /** One more cart line adds what its product's stored value contributes. */
  lemma GatheredSnoc(a: seq<CartItem>, line: CartItem, store: map<PostId, MetaValue>)
    ensures Gathered(a + [line], store) == Gathered(a, store) + Contribution(GetPostMeta(store, line.productId))
  {
  }

  /** An id is gathered exactly when some cart line contributes it. */
  lemma {:induction false} GatheredMembers(cart: seq<CartItem>, store: map<PostId, MetaValue>, x: string)
    ensures x in Gathered(cart, store) <==>
            exists k :: 0 <= k < |cart| && x in Contribution(GetPostMeta(store, cart[k].productId))
  {
    if cart != [] {
      var n := |cart| - 1;
      GatheredMembers(cart[..n], store, x);
      if x in Gathered(cart, store) && x !in Contribution(GetPostMeta(store, cart[n].productId)) {
        var k :| 0 <= k < n && x in Contribution(GetPostMeta(store, cart[..n][k].productId));
        assert cart[..n][k] == cart[k];
      }
      if exists k :: 0 <= k < |cart| && x in Contribution(GetPostMeta(store, cart[k].productId)) {
        var k :| 0 <= k < |cart| && x in Contribution(GetPostMeta(store, cart[k].productId));
        if k < n {
          assert cart[..n][k] == cart[k];
        }
      }
    }
  }

  /** The session value lists every contributed id exactly once, in the order
      in which the ids first appear across the cart. */
  lemma AggregateIsDistinctAndOrdered(cart: seq<CartItem>, store: map<PostId, MetaValue>)
    ensures var ids := Unique(Gathered(cart, store));
      && NoDuplicates(ids)
      && (forall x :: x in ids <==>
            exists k :: 0 <= k < |cart| && x in Contribution(GetPostMeta(store, cart[k].productId)))
      && InFirstOccurrenceOrder(Gathered(cart, store), ids)
  {
    forall x {
      GatheredMembers(cart, store, x);
    }
    UniqueKeepsFirstOccurrenceOrder(Gathered(cart, store));
  }

  /** Reordering the cart does not change which ids the session value lists. */
  lemma ReorderingKeepsIds(c1: seq<CartItem>, c2: seq<CartItem>, store: map<PostId, MetaValue>)
    requires multiset(c1) == multiset(c2)
    ensures forall x :: x in Unique(Gathered(c1, store)) <==> x in Unique(Gathered(c2, store))
  {
    forall x
      ensures x in Gathered(c1, store) <==> x in Gathered(c2, store)
    {
      GatheredMembers(c1, store, x);
      GatheredMembers(c2, store, x);
      if exists k :: 0 <= k < |c1| && x in Contribution(GetPostMeta(store, c1[k].productId)) {
        var k :| 0 <= k < |c1| && x in Contribution(GetPostMeta(store, c1[k].productId));
        assert c1[k] in multiset(c2);
        var k' :| 0 <= k' < |c2| && c2[k'] == c1[k];
      }
      if exists k :: 0 <= k < |c2| && x in Contribution(GetPostMeta(store, c2[k].productId)) {
        var k :| 0 <= k < |c2| && x in Contribution(GetPostMeta(store, c2[k].productId));
        assert c2[k] in multiset(c1);
        var k' :| 0 <= k' < |c1| && c1[k'] == c2[k];
      }
    }
  }

  /** A cart none of whose products has an assignment (in particular the
      empty cart) yields the empty string. */
  lemma {:induction false} NoAssignmentsYieldEmpty(cart: seq<CartItem>, store: map<PostId, MetaValue>)
    requires forall k :: 0 <= k < |cart| ==> Contribution(GetPostMeta(store, cart[k].productId)) == []
    ensures Gathered(cart, store) == []
    ensures BillingCostValue(cart, store) == ""
  {
    if cart != [] {
      var n := |cart| - 1;
      NoAssignmentsYieldEmpty(cart[..n], store);
    }
  }

  /** When only strings are stored, the session value is truthy exactly when
      some cart line has a cost centre assigned. */
  lemma AggregateTruthyIffAssigned(cart: seq<CartItem>, store: map<PostId, MetaValue>)
    requires forall p :: p in store ==> store[p].Scalar?
    ensures Truthy(BillingCostValue(cart, store)) <==>
            exists k :: 0 <= k < |cart| && Truthy(GetPostMeta(store, cart[k].productId).s)
  {
    var ids := Unique(Gathered(cart, store));
    ImplodeTruthy(ids);
    forall x
      ensures x in ids <==> exists k :: 0 <= k < |cart| && x in Contribution(GetPostMeta(store, cart[k].productId))
    {
      GatheredMembers(cart, store, x);
    }
    if exists k :: 0 <= k < |cart| && Truthy(GetPostMeta(store, cart[k].productId).s) {
      var k :| 0 <= k < |cart| && Truthy(GetPostMeta(store, cart[k].productId).s);
      assert GetPostMeta(store, cart[k].productId).s in ids;
    }
    if |ids| > 0 {
      assert ids[0] in ids;
      var k :| 0 <= k < |cart| && ids[0] in Contribution(GetPostMeta(store, cart[k].productId));
      assert Truthy(GetPostMeta(store, cart[k].productId).s);
    }
  }

  /** Ids without commas (the API's numeric ids) can be read back from the
      session value: splitting it at ", " gives the deduplicated ids. */
  lemma SessionValueReadsBack(cart: seq<CartItem>, store: map<PostId, MetaValue>)
    requires Gathered(cart, store) != []
    requires forall i :: 0 <= i < |Gathered(cart, store)| ==> CommaFree(Gathered(cart, store)[i])
    ensures Explode(BillingCostValue(cart, store)) == Unique(Gathered(cart, store))
  {
    var g := Gathered(cart, store);
    var u := Unique(g);
    assert g[0] in u;
    forall i | 0 <= i < |u|
      ensures CommaFree(u[i])
    {
      assert u[i] in g;
    }
    ExplodeImplode(u);
  }

  // ---------------------------------------------------------------------
  // add_data_in_orden and show_data_in_admin_order
  // ---------------------------------------------------------------------

  /** `WC()->session->get('billing_cost_hide')`; a missing key is `null`,
      which the order stores as the empty string. */
  function SessionValue(values: map<string, string>): (v: string)
    ensures BillingCostKey in values ==> v == values[BillingCostKey]
    ensures BillingCostKey !in values ==> !Truthy(v)
  {
    if BillingCostKey in values then values[BillingCostKey] else ""
  }

  /** `add_data_in_orden`: copies the session value onto the order's meta
      and saves the order. (The hook's `!empty($meta_key_cost)` test is on
      the constant key, so it always passes.) */
  method AddDataInOrden(session: Session, order: Order)
    modifies order
    ensures order.meta == old(order.meta)[BillingCostKey := SessionValue(session.values)]
    ensures order.persisted == order.meta
  {
    var value := SessionValue(session.values);
    order.meta := order.meta[BillingCostKey := value];
    order.persisted := order.meta;
  }

  /** The paragraph the admin order screen prints: a label and a value. */
  datatype AdminLine = AdminLine(caption: string, value: string)

  /** `show_data_in_admin_order`: prints the stored value under the label
      made from the meta key, only when the value is truthy. */
  function ShowDataInAdminOrder(orderMeta: map<string, string>): (line: Option<AdminLine>)
    ensures line.Some? <==> BillingCostKey in orderMeta && Truthy(orderMeta[BillingCostKey])
    ensures line.Some? ==> line.value == AdminLine("Billing Cost Hide", orderMeta[BillingCostKey])
  {
    BillingCostLabel();
    var value := if BillingCostKey in orderMeta then orderMeta[BillingCostKey] else "";
    if Truthy(value) then Some(AdminLine(MetaKeyLabel(BillingCostKey), value)) else None
  }

  /** The label of `billing_cost_hide` is "Billing Cost Hide". */
  lemma BillingCostLabel()
    ensures MetaKeyLabel(BillingCostKey) == "Billing Cost Hide"
  {
  }

  /** After annotation the admin screen shows exactly the session value,
      when it is truthy, and nothing otherwise. */
  lemma AnnotatedOrderShowsSessionValue(orderMeta: map<string, string>, values: map<string, string>)
    ensures var shown := ShowDataInAdminOrder(orderMeta[BillingCostKey := SessionValue(values)]);
      && (shown.Some? <==> BillingCostKey in values && Truthy(values[BillingCostKey]))
      && (shown.Some? ==> shown.value.value == values[BillingCostKey])
  {
  }
}
