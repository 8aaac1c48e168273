/** Locating the list of raw card records inside the page's JSON payload
    (worker/official.py): first along the known path of the gallery blade,
    then by a depth-first search of the whole tree. */
module Locate {
  import opened Wrappers
  import opened Json

  const GalleryBladeType: string := "riftboundCardGallery"

  /** `cards.items` of a dictionary when `cards` is a dictionary and `items`
      a list. */
  function CardsItems(node: Json): (r: Option<seq<Json>>)
    ensures r.Some? ==> node.JObj? && Path(node, ["cards", "items"]) == Some(JArr(r.value))
    ensures var items := Path(node, ["cards", "items"]);
      items.Some? && items.value.JArr? ==> r == Some(items.value.items)
  {
    PathStep(node, "cards", ["items"]);
    if !node.JObj? then None
    else
      var cards := GetOr(node, "cards", JNull);
      PathStep(cards, "items", []);
      if cards.JObj? && GetOr(cards, "items", JNull).JArr? then
        Some(GetOr(cards, "items", JNull).items)
      else None
  }

  /** What one blade contributes: its `cards.items` when it is a dictionary
      of the gallery type. */
  function BladeItems(blade: Json): (r: Option<seq<Json>>)
    ensures r.Some? ==> Lookup(blade, "type") == Some(JStr(GalleryBladeType)) && CardsItems(blade) == r
    ensures Lookup(blade, "type") == Some(JStr(GalleryBladeType)) ==> r == CardsItems(blade)
  {
    if blade.JObj? && GetOr(blade, "type", JNull) == JStr(GalleryBladeType) then CardsItems(blade)
    else None
  }

  /** The loop over the blades: the first blade that contributes. */
  function FirstBladeItems(blades: seq<Json>): (r: Option<seq<Json>>)
    ensures r.Some? ==>
      (exists i :: 0 <= i < |blades| && BladeItems(blades[i]) == r
         && forall j :: 0 <= j < i ==> BladeItems(blades[j]).None?)
    ensures r.None? ==> forall i :: 0 <= i < |blades| ==> BladeItems(blades[i]).None?
  {
    if blades == [] then None
    else if BladeItems(blades[0]).Some? then BladeItems(blades[0])
    else
      var r := FirstBladeItems(blades[1..]);
      assert forall i :: 0 < i < |blades| ==> blades[i] == blades[1..][i - 1];
      if r.Some? then
        var i :| 0 <= i < |blades[1..]| && BladeItems(blades[1..][i]) == r
          && forall j :: 0 <= j < i ==> BladeItems(blades[1..][j]).None?;
        assert BladeItems(blades[i + 1]) == r;
        r
      else r
  }

  /** `get_cards_from_blades`: follow `props.pageProps.page.blades`; no
      result when a step is missing or the blades are not a list. */
  function GetCardsFromBlades(data: Json): (r: Option<seq<Json>>)
    ensures r.Some? ==>
      (exists blades :: Path(data, ["props", "pageProps", "page", "blades"]) == Some(JArr(blades))
         && FirstBladeItems(blades) == r)
    ensures var blades := Path(data, ["props", "pageProps", "page", "blades"]);
      blades.Some? && blades.value.JArr? ==> r == FirstBladeItems(blades.value.items)
    ensures var blades := Path(data, ["props", "pageProps", "page", "blades"]);
      !(blades.Some? && blades.value.JArr?) ==> r.None?
  {
    match Path(data, ["props", "pageProps", "page", "blades"])
    case Some(JArr(blades)) => FirstBladeItems(blades)
    case _ => None
  }

  /** The values a dictionary or list holds, in order. */
  function Children(node: Json): (r: seq<Json>)
    ensures forall i :: 0 <= i < |r| ==> r[i] < node
  {
    match node
    case JArr(items) => items
    case JObj(members) =>
      var r := seq(|members|, i requires 0 <= i < |members| => members[i].value);
      assert forall i :: 0 <= i < |r| ==> r[i] < members[i] < node;
      r
    case _ => []
  }

  /** `find_cards_items_recursive`: this node's `cards.items`, else the
      first result among its values in order. */
  function FindCardsItems(node: Json): Option<seq<Json>>
    decreases node, 1
  {
    if CardsItems(node).Some? then CardsItems(node) else FindFrom(node, 0)
  }

  /** The loop over the values of `node` from the `i`-th on. */
  function FindFrom(node: Json, i: nat): Option<seq<Json>>
    decreases node, 0, |Children(node)| - i
  {
    if i >= |Children(node)| then None
    else match FindCardsItems(Children(node)[i])
      case Some(items) => Some(items)
      case None => FindFrom(node, i + 1)
  }

  /** Every node of the tree in depth-first pre-order: the node, then the
      nodes under each of its values in order. */
  function PreOrder(node: Json): (r: seq<Json>)
    decreases node, 1
    ensures r != [] && r[0] == node
  {
    [node] + PreOrderFrom(node, 0)
  }

  function PreOrderFrom(node: Json, i: nat): seq<Json>
    decreases node, 0, |Children(node)| - i
  {
    if i >= |Children(node)| then [] else PreOrder(Children(node)[i]) + PreOrderFrom(node, i + 1)
  }

  /** The `cards.items` of the first node of `nodes` that has one. */
  function FirstCardsItems(nodes: seq<Json>): (r: Option<seq<Json>>)
    ensures r.Some? ==>
      (exists i :: 0 <= i < |nodes| && CardsItems(nodes[i]) == r
         && forall j :: 0 <= j < i ==> CardsItems(nodes[j]).None?)
    ensures r.None? ==> forall i :: 0 <= i < |nodes| ==> CardsItems(nodes[i]).None?
  {
    if nodes == [] then None
    else if CardsItems(nodes[0]).Some? then CardsItems(nodes[0])
    else
      var r := FirstCardsItems(nodes[1..]);
      assert forall i :: 0 < i < |nodes| ==> nodes[i] == nodes[1..][i - 1];
      if r.Some? then
        var i :| 0 <= i < |nodes[1..]| && CardsItems(nodes[1..][i]) == r
          && forall j :: 0 <= j < i ==> CardsItems(nodes[1..][j]).None?;
        assert CardsItems(nodes[i + 1]) == r;
        r
      else r
  }

  lemma {:induction false} FirstCardsItemsAppend(a: seq<Json>, b: seq<Json>)
    ensures FirstCardsItems(a + b) == if FirstCardsItems(a).Some? then FirstCardsItems(a) else FirstCardsItems(b)
  {
    if a == [] {
      assert a + b == b;
    } else {
      assert (a + b)[0] == a[0];
      assert (a + b)[1..] == a[1..] + b;
      FirstCardsItemsAppend(a[1..], b);
    }
  }

  /** The recursive search finds exactly the `cards.items` of the first
      node, in depth-first pre-order, that has one. */
  lemma {:induction false} FindIsFirstInPreOrder(node: Json)
    ensures FindCardsItems(node) == FirstCardsItems(PreOrder(node))
    decreases node, 1
  {
    FirstCardsItemsAppend([node], PreOrderFrom(node, 0));
    FindFromIsFirst(node, 0);
  }

  lemma {:induction false} FindFromIsFirst(node: Json, i: nat)
    ensures FindFrom(node, i) == FirstCardsItems(PreOrderFrom(node, i))
    decreases node, 0, |Children(node)| - i
  {
    if i < |Children(node)| {
      var child := Children(node)[i];
      FindIsFirstInPreOrder(child);
      FindFromIsFirst(node, i + 1);
      FirstCardsItemsAppend(PreOrder(child), PreOrderFrom(node, i + 1));
    }
  }

  /** A search result is the `cards.items` of some node of the tree, and
      the search fails only when no node has one. */
  lemma FindSoundComplete(node: Json)
    ensures FindCardsItems(node).Some? ==>
      exists n :: n in PreOrder(node) && CardsItems(n) == FindCardsItems(node)
    ensures FindCardsItems(node).None? <==> forall n :: n in PreOrder(node) ==> CardsItems(n).None?
  {
    FindIsFirstInPreOrder(node);
    var nodes := PreOrder(node);
    if FindCardsItems(node).Some? {
      var i :| 0 <= i < |nodes| && CardsItems(nodes[i]) == FirstCardsItems(nodes)
        && forall j :: 0 <= j < i ==> CardsItems(nodes[j]).None?;
      assert nodes[i] in nodes;
    }
  }

  /** The items `fetch_cards` works on: the gallery blade's items when there
      are any, else the search's result; raises when neither finds a list. */
  function LocateItems(data: Json): (r: Result<seq<Json>>)
    ensures r.Err? <==> (GetCardsFromBlades(data).None? || GetCardsFromBlades(data) == Some([]))
                        && FindCardsItems(data).None?
    ensures GetCardsFromBlades(data).Some? && GetCardsFromBlades(data).value != [] ==>
      r == Ok(GetCardsFromBlades(data).value)
    ensures r.Ok? ==> Some(r.value) == GetCardsFromBlades(data) || Some(r.value) == FindCardsItems(data)
    ensures (GetCardsFromBlades(data).None? || GetCardsFromBlades(data) == Some([])) && FindCardsItems(data).Some? ==>
      r == Ok(FindCardsItems(data).value)
  {
    match GetCardsFromBlades(data)
    case Some(items) =>
      if items != [] then Ok(items)
      else (match FindCardsItems(data)
        case Some(found) => Ok(found)
        case None => Err("Could not locate cards.items in JSON"))
    case None =>
      match FindCardsItems(data)
      case Some(found) => Ok(found)
      case None => Err("Could not locate cards.items in JSON")
  }
}
