/**
  The host platform's stores the plugin reads and writes, as Dafny state:
  the product meta field `_centro_costos`, the checkout session, and an
  order's meta data.
 */
module Stores {
  import opened Php

  type PostId = int

  /** A value stored under `_centro_costos`. The plugin itself only ever
      stores strings; an array of ids is accepted when reading. */
  datatype MetaValue = Scalar(s: string) | List(items: seq<string>)

  /** `get_post_meta($id, '_centro_costos', true)`: a missing entry reads as
      the empty string. */
  function GetPostMeta(store: map<PostId, MetaValue>, id: PostId): (v: MetaValue)
    ensures id !in store ==> v == Scalar("")
    ensures id in store ==> v == store[id]
  {
    if id in store then store[id] else Scalar("")
  }

  /** The `_centro_costos` entries of all products. */
  class ProductMeta {
    var centroCostos: map<PostId, MetaValue>

    constructor (initial: map<PostId, MetaValue>)
      ensures centroCostos == initial
    {
      centroCostos := initial;
    }
  }

  /** The WooCommerce session of one customer. */
  class Session {
    var values: map<string, string>

    constructor ()
      ensures values == map[]
    {
      values := map[];
    }
  }

  /** An order: meta data in memory (`update_meta_data`) and what `save()`
      has persisted. */
  class Order {
    var meta: map<string, string>
    var persisted: map<string, string>

    constructor (initial: map<string, string>)
      ensures meta == initial && persisted == initial
    {
      meta := initial;
      persisted := initial;
    }
  }
}
