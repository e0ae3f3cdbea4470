/**
  The whole pipeline driven the way the shop drives it: an administrator
  assigns a cost centre to a product, a customer checks out a cart, the
  order is created and then viewed in the admin screen.
 */
module Scenario {
  import opened Php
  import opened Stores
  import opened ProductAdmin
  import opened Checkout

  /** Three products sharing two cost centres and one product without an
      assignment aggregate to the two distinct ids, in cart order. */
  lemma SharedCostCentresCollapse()
    ensures BillingCostValue([CartItem(1), CartItem(2), CartItem(3), CartItem(4)],
                             map[1 := Scalar("cc1"), 2 := Scalar("cc1"), 4 := Scalar("cc2")])
            == "cc1, cc2"
  {
    SharedGathered();
    SharedUnique();
    assert ["cc1", "cc2"][1..] == ["cc2"];
  }

  /** The gathered ids of that cart, before deduplication. */
  lemma SharedGathered()
    ensures Gathered([CartItem(1), CartItem(2), CartItem(3), CartItem(4)],
                     map[1 := Scalar("cc1"), 2 := Scalar("cc1"), 4 := Scalar("cc2")])
            == ["cc1", "cc1", "cc2"]
  {
    var store := map[1 := Scalar("cc1"), 2 := Scalar("cc1"), 4 := Scalar("cc2")];
    GatheredSnoc([], CartItem(1), store);
    assert [] + [CartItem(1)] == [CartItem(1)];
    GatheredSnoc([CartItem(1)], CartItem(2), store);
    assert [CartItem(1)] + [CartItem(2)] == [CartItem(1), CartItem(2)];
    GatheredSnoc([CartItem(1), CartItem(2)], CartItem(3), store);
    assert [CartItem(1), CartItem(2)] + [CartItem(3)] == [CartItem(1), CartItem(2), CartItem(3)];
    GatheredSnoc([CartItem(1), CartItem(2), CartItem(3)], CartItem(4), store);
    assert [CartItem(1), CartItem(2), CartItem(3)] + [CartItem(4)]
        == [CartItem(1), CartItem(2), CartItem(3), CartItem(4)];
  }

  /** `array_unique` of those ids. */
  lemma SharedUnique()
    ensures Unique(["cc1", "cc1", "cc2"]) == ["cc1", "cc2"]
  {
    UniqueOfRepeated("cc1");
    UniqueSnoc(["cc1", "cc1"], "cc2");
    assert ["cc1", "cc1"] + ["cc2"] == ["cc1", "cc1", "cc2"];
  }

  /** An id seen twice is kept once. */
  lemma UniqueOfRepeated(x: string)
    ensures Unique([x, x]) == [x]
  {
    UniqueSnoc([], x);
    assert [] + [x] == [x];
    UniqueSnoc([x], x);
    assert [x] + [x] == [x, x];
  }

  /** Assign "CC-100" to product 1, check out [1, 1, 2] (product 2 has no
      assignment), create the order and show it. */
  method AssignCheckoutAndShow(verifyNonce: string -> bool, sanitize: string -> string)
    requires verifyNonce("nonce") && sanitize("CC-100") == "CC-100"
  {
    var meta := new ProductMeta(map[]);
    var postTypes := map[1 := "product", 2 := "product"];
    var req := SaveRequest(false, Some("nonce"), Some("CC-100"));
    SaveCustomMetaboxData(meta, 1, req, postTypes, verifyNonce, sanitize);
    assert GetPostMeta(meta.centroCostos, 1) == Scalar("CC-100");
    assert GetPostMeta(meta.centroCostos, 2) == Scalar("");

    var session := new Session();
    var cart := [CartItem(1), CartItem(1), CartItem(2)];
    PopulateBillingCostField(session, cart, meta);
    CheckoutGathered(meta.centroCostos);
    UniqueOfRepeated("CC-100");
    assert session.values[BillingCostKey] == "CC-100";

    var order := new Order(map[]);
    AddDataInOrden(session, order);
    var shown := ShowDataInAdminOrder(order.persisted);
    assert shown == Some(AdminLine("Billing Cost Hide", "CC-100"));
  }

  /** The gathered ids of the checkout in AssignCheckoutAndShow. */
  lemma CheckoutGathered(store: map<PostId, MetaValue>)
    requires GetPostMeta(store, 1) == Scalar("CC-100") && GetPostMeta(store, 2) == Scalar("")
    ensures Gathered([CartItem(1), CartItem(1), CartItem(2)], store) == ["CC-100", "CC-100"]
  {
    GatheredSnoc([], CartItem(1), store);
    assert [] + [CartItem(1)] == [CartItem(1)];
    GatheredSnoc([CartItem(1)], CartItem(1), store);
    assert [CartItem(1)] + [CartItem(1)] == [CartItem(1), CartItem(1)];
    GatheredSnoc([CartItem(1), CartItem(1)], CartItem(2), store);
    assert [CartItem(1), CartItem(1)] + [CartItem(2)] == [CartItem(1), CartItem(1), CartItem(2)];
  }
}
