/**
  The product edit screen: the "Centros de Costos" box that offers the
  fetched cost centres in a select, and the save hook that stores the
  chosen id in the product's `_centro_costos` meta entry.
 */
module ProductAdmin {
  import opened Php
  import opened Stores
  import opened Siigo

  // ---------------------------------------------------------------------
  // custom_metabox_callback
  // ---------------------------------------------------------------------

  /** One `<option>` of the select: its value, its text and whether it
      carries `selected="selected"`. */
  datatype OptionTag = OptionTag(value: string, text: string, selected: bool)

  /** What the box shows: the error notice, or the select's options. */
  datatype Metabox = ErrorNotice | Select(options: seq<OptionTag>)

  const Placeholder: OptionTag := OptionTag("", "Selecciona un centro de costo", false)

  /** `$selected_centro == $centro->id`, where `$selected_centro` is the
      product's stored value. An array never equals an id. */
  predicate IsSelected(stored: MetaValue, id: string) {
    stored.Scalar? && stored.s == id
  }

  /** `custom_metabox_callback`: the error notice when the fetch failed or
      gave an empty list (both falsy in PHP); otherwise the placeholder
      followed by one option per cost centre, in the API's order. */
  function CustomMetaboxCallback(fetched: Option<seq<CostCenter>>, stored: MetaValue): (box: Metabox)
    ensures box.ErrorNotice? <==> fetched.None? || fetched.value == []
    ensures box.Select? ==>
      && |box.options| == |fetched.value| + 1
      && box.options[0] == Placeholder
      && forall i :: 0 < i < |box.options| ==>
           && box.options[i].value == fetched.value[i - 1].id
           && box.options[i].text == fetched.value[i - 1].name
           && (box.options[i].selected <==> stored == Scalar(fetched.value[i - 1].id))
  {
    match fetched
    case None => ErrorNotice
    case Some(centres) =>
      if centres == [] then ErrorNotice
      else Select([Placeholder] + seq(|centres|, i requires 0 <= i < |centres| =>
        OptionTag(centres[i].id, centres[i].name, IsSelected(stored, centres[i].id))))
  }

  /** Composed with the fetch, the box offers the select exactly when the
      fetch returned a list, and the options are that list's centres. */
  lemma MetaboxOfFetch(cfg: Config, login: LoginOutcome, response: CostCentersOutcome, stored: MetaValue)
    ensures var fetched := FetchCostCentersFromSiigo(cfg, login, response).result;
      var box := CustomMetaboxCallback(fetched, stored);
      && (box.Select? <==> fetched.Some?)
      && (box.Select? ==> |box.options| == |response.decoded.value| + 1)
  {
  }

  ghost predicate DistinctIds(centres: seq<CostCenter>) {
    forall i, j :: 0 <= i < j < |centres| ==> centres[i].id != centres[j].id
  }

  /** When the API's ids are distinct, no two options are selected. */
  lemma AtMostOneSelected(centres: seq<CostCenter>, stored: MetaValue, i: nat, j: nat)
    requires DistinctIds(centres)
    requires 0 < i < j < |centres| + 1
    ensures var box := CustomMetaboxCallback(Some(centres), stored);
      !(box.options[i].selected && box.options[j].selected)
  {
  }

  // ---------------------------------------------------------------------
  // save_custom_metabox_data
  // ---------------------------------------------------------------------

  /** The parts of a `save_post` request the hook looks at: whether WordPress
      is autosaving, the posted nonce and the posted `centro_costos` field. */
  datatype SaveRequest = SaveRequest(doingAutosave: bool, nonce: Option<string>, centroCostos: Option<string>)

  /** The three guards of the hook: not an autosave, a nonce that is present
      and verifies, and a post whose type is `product`. */
  predicate SaveAllowed(req: SaveRequest, postId: PostId, postTypes: map<PostId, string>,
                        verifyNonce: string -> bool)
  {
    && !req.doingAutosave
    && req.nonce.Some? && verifyNonce(req.nonce.value)
    && postId in postTypes && postTypes[postId] == "product"
  }

  /** The `_centro_costos` entries after the hook has run. */
  function SavedStore(store: map<PostId, MetaValue>, postId: PostId, req: SaveRequest,
                      postTypes: map<PostId, string>, verifyNonce: string -> bool,
                      sanitize: string -> string): (r: map<PostId, MetaValue>)
    ensures !SaveAllowed(req, postId, postTypes, verifyNonce) ==> r == store
    ensures forall p :: p != postId ==> GetPostMeta(r, p) == GetPostMeta(store, p) && (p in r <==> p in store)
    ensures SaveAllowed(req, postId, postTypes, verifyNonce) && req.centroCostos.Some? ==>
              postId in r && GetPostMeta(r, postId) == Scalar(sanitize(req.centroCostos.value))
    ensures SaveAllowed(req, postId, postTypes, verifyNonce) && req.centroCostos.None? ==>
              postId !in r && GetPostMeta(r, postId) == Scalar("")
  {
    if !SaveAllowed(req, postId, postTypes, verifyNonce) then store
    else match req.centroCostos
      case Some(posted) => store[postId := Scalar(sanitize(posted))]
      case None => store - {postId}
  }

  /** `save_custom_metabox_data`: updates or deletes the product's entry when
      all three guards pass, and touches nothing else. */
  method SaveCustomMetaboxData(meta: ProductMeta, postId: PostId, req: SaveRequest,
                               postTypes: map<PostId, string>, verifyNonce: string -> bool,
                               sanitize: string -> string)
    modifies meta
    ensures meta.centroCostos == SavedStore(old(meta.centroCostos), postId, req, postTypes, verifyNonce, sanitize)
  {
    if req.doingAutosave {
      return;
    }
    if req.nonce.None? || !verifyNonce(req.nonce.value) {
      return;
    }
    if postId !in postTypes || postTypes[postId] != "product" {
      return;
    }
    match req.centroCostos {
      case Some(posted) =>
        meta.centroCostos := meta.centroCostos[postId := Scalar(sanitize(posted))];
      case None =>
        meta.centroCostos := meta.centroCostos - {postId};
    }
  }

  /** The box offers back what was saved: after an accepted save of a cost
      centre's id (one that sanitizing leaves as it is), the box re-rendered
      from the same list selects exactly the options carrying that id. */
  lemma SavedChoiceIsSelected(store: map<PostId, MetaValue>, postId: PostId, req: SaveRequest,
                              postTypes: map<PostId, string>, verifyNonce: string -> bool,
                              sanitize: string -> string, centres: seq<CostCenter>, k: nat)
    requires SaveAllowed(req, postId, postTypes, verifyNonce)
    requires req.centroCostos.Some? && sanitize(req.centroCostos.value) == req.centroCostos.value
    requires 0 < k <= |centres|
    ensures var box := CustomMetaboxCallback(Some(centres),
                         GetPostMeta(SavedStore(store, postId, req, postTypes, verifyNonce, sanitize), postId));
      box.options[k].selected <==> centres[k - 1].id == req.centroCostos.value
  {
  }
}
