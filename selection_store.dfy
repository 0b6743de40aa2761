/** ui/src/lib/SelectionStore.js: the items the user has selected, as a list
    of ids in the order they were selected and a map from id to item. */
module SelectionStore {

  import opened Common
  import opened JsArray
  import Hub
  import ItemStore

  /** `!item` fails for what the item store's `get` returns (None for
      undefined). */
  predicate Available(item: Option<Hub.Value>) {
    item.Some? && Hub.Truthy(item.value)
  }

  /** `notify`: the hub's `_dispatch` ran once and nothing else changed. */
  twostate predicate NotifiedOnce(h: Hub.Hub)
    reads h
  {
    && h.dispatching
    && h.pending == (if old(h.dispatching) then old(h.pending) else old(h.pending) + 1)
    && h.state == old(h.state) && h.emitted == old(h.emitted) && h.stores == old(h.stores)
  }

  /** `SelectionStore`. */
  class SelectionStore {
    /** `_hub`: notified of every change. */
    const hub: Hub.Hub
    /** `_selection`: the selected ids, oldest first. */
    var selection: seq<string>
    /** `_map`: id to item. */
    var items: map<string, Hub.Value>

    /** The list holds exactly the map's ids, each once. */
    predicate Valid()
      reads this
    {
      && NoDuplicates(selection)
      && (forall id :: id in items ==> id in selection)
      && (forall id :: id in selection ==> id in items)
    }

    /** `new SelectionStore(hub)`, which resets it. */
    constructor (h: Hub.Hub)
      ensures hub == h && selection == [] && items == map[] && Valid()
    {
      hub := h;
      selection := [];
      items := map[];
    }

    /** `reset`: nothing is selected. */
    method Reset()
      modifies this
      ensures selection == [] && items == map[] && Valid()
    {
      selection := [];
      items := map[];
    }

    /** `inflate`: the map is the dump's data (an empty one when that is
        falsy) and the list is its keys, each once, in an order this model
        leaves open (`Object.keys`). */
    method Inflate(data: Hub.Value)
      requires data.Obj? || !Hub.Truthy(data)
      modifies this
      ensures items == (if data.Obj? then data.fields else map[])
      ensures Valid()
    {
      items := if data.Obj? then data.fields else map[];
      selection := [];
      var rest := items.Keys;
      while rest != {}
        invariant items == (if data.Obj? then data.fields else map[])
        invariant rest <= items.Keys
        invariant NoDuplicates(selection)
        invariant forall id :: id in selection <==> id in items && id !in rest
        decreases |rest|
      {
        var id :| id in rest;
        AppendNoDuplicates(selection, id);
        selection := selection + [id];
        rest := rest - {id};
      }
    }

    /** `contains`: whether the id is a key of the map, which in a valid store
        is whether it is in the list. */
    predicate Contains(id: string)
      reads this
      ensures Contains(id) <==> id in items
      ensures Valid() ==> (Contains(id) <==> id in selection)
    {
      id in items
    }

    /** `addItem`: nothing happens for an id already selected; otherwise the
        item store is asked for the item (which moves it to the head of that
        cache), and only an item it has is appended to the list, mapped, and
        notified once. */
    method AddItem(id: string, store: ItemStore.ItemStore)
      modifies this, store, hub
      ensures old(Contains(id)) ==> unchanged(this, store, hub)
      ensures !old(Contains(id)) ==> store.State() == ItemStore.AfterGet(old(store.State()), id).0
      ensures var fetched := ItemStore.AfterGet(old(store.State()), id).1;
        !old(Contains(id)) && !Available(fetched) ==> unchanged(this, hub)
      ensures var fetched := ItemStore.AfterGet(old(store.State()), id).1;
        !old(Contains(id)) && Available(fetched) ==>
          && selection == old(selection) + [id]
          && items == old(items)[id := fetched.value]
          && NotifiedOnce(hub)
      ensures old(Valid()) ==> Valid()
    {
      if Contains(id) {
        return;
      }
      var item := store.Get(id);
      if !Available(item) {
        return;
      }
      if Valid() {
        AppendNoDuplicates(selection, id);
      }
      selection := selection + [id];
      items := items[id := item.value];
      hub.Dispatch();
    }

    /** `removeItem`: nothing happens for an id not selected; otherwise it is
        spliced out of the list where `indexOf` finds it, unmapped, and
        notified once. In a valid store that removes exactly its one
        occurrence. */
    method RemoveItem(id: string)
      modifies this, hub
      ensures !old(Contains(id)) ==> unchanged(this, hub)
      ensures old(Contains(id)) ==>
        && selection == SpliceOne(old(selection), IndexOf(old(selection), id))
        && items == old(items) - {id}
        && NotifiedOnce(hub)
      ensures old(Valid()) && old(Contains(id)) ==> selection == Without(old(selection), id) && id !in selection
      ensures old(Valid()) ==> Valid()
    {
      if !Contains(id) {
        return;
      }
      if Valid() {
        SpliceIndexOfUnique(selection, id);
      }
      selection := SpliceOne(selection, IndexOf(selection, id));
      items := items - {id};
      hub.Dispatch();
    }

    /** `toggleItem`: a selected id is removed; an unselected one is added
        when the item store has it. */
    method ToggleItem(id: string, store: ItemStore.ItemStore)
      modifies this, store, hub
      ensures old(Contains(id)) ==> !Contains(id) && unchanged(store)
      ensures old(Valid()) && old(Contains(id)) ==> selection == Without(old(selection), id)
      ensures !old(Contains(id)) ==>
        (Contains(id) <==> Available(ItemStore.AfterGet(old(store.State()), id).1))
      ensures !old(Contains(id)) && Contains(id) ==> selection == old(selection) + [id]
      ensures old(Valid()) ==> Valid()
    {
      if Contains(id) {
        RemoveItem(id);
      } else {
        AddItem(id, store);
      }
    }
  }
}
