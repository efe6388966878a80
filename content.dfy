/** The two content tables of the backend, Blogs and Services, as maps from the key
    (`blogId` or `serviceId`) to the stored JSON item. Both controllers build their
    items the same way; what differs between them is the key attribute, the 404
    message and the attributes a blog adds after the body (`extraFields`), so the
    behaviour is stated once here, over an `Entity` that names those. */
module Content {
  import opened Wrappers
  import opened Json

  type Table = map<string, Object>

  /** The per-table constants. */
  datatype Entity = Entity(keyAttr: string, notFound: string, addFailed: string)

  /** The key attribute is none of the attributes the handlers force. */
  predicate WellFormed(e: Entity) {
    e.keyAttr != "enabled" && e.keyAttr != "createdAt" && e.keyAttr != "extraFields"
  }

  const ToggleFailed := "Failed to toggle status"

  /** A handler's reply: a success status with the item it sends back, if any, or an error. */
  datatype Reply = Done(status: nat, item: Option<Object>) | Refused(status: nat, error: string)

  /** A reply together with the table after the call. */
  datatype After = After(reply: Reply, items: Table)

  /** The store accepts a key attribute only when it holds a non-empty string. */
  predicate IsKey(v: Option<Value>) {
    v.Some? && v.value.Str? && v.value.s != ""
  }

  /** Every item is stored under the value of its own key attribute. */
  ghost predicate KeyedBy(t: Table, keyAttr: string) {
    forall k :: k in t ==> Get(t[k], keyAttr) == Some(Str(k))
  }

  /** The attributes the add handlers place after the body. */
  function Forced(now: string): Object {
    map["enabled" := Bool(true), "createdAt" := Str(now)]
  }

  /** `{ [keyAttr]: newId, ...body, ...extra, enabled: true, createdAt: now }`. */
  function NewRecord(keyAttr: string, newId: string, body: Object, extra: Object, now: string): Object {
    map[keyAttr := Str(newId)] + body + extra + Forced(now)
  }

  /** add: build the record and put it under its key attribute; a key the store refuses is a 500. */
  function AddSpec(t: Table, e: Entity, body: Object, extra: Object, newId: string, now: string): After {
    var r := NewRecord(e.keyAttr, newId, body, extra, now);
    var key := Get(r, e.keyAttr);
    if IsKey(key) then After(Done(201, Some(r)), t[key.value.s := r])
    else After(Refused(500, e.addFailed), t)
  }

  /** get: the stored item, or 404. */
  function GetSpec(t: Table, e: Entity, id: string): (r: Reply)
    ensures r.Done? <==> id in t
    ensures r.Done? ==> r == Done(200, Some(t[id]))
    ensures r.Refused? ==> r == Refused(404, e.notFound)
  {
    if id in t then Done(200, Some(t[id])) else Refused(404, e.notFound)
  }

  /** `{ ...body, ...extra, [keyAttr]: id }`. */
  function UpdatedRecord(keyAttr: string, id: string, body: Object, extra: Object): Object {
    body + extra + map[keyAttr := Str(id)]
  }

  /** update: put the rebuilt record under the path id, replacing whatever was there. */
  function UpdateSpec(t: Table, e: Entity, id: string, body: Object, extra: Object): After
    requires id != ""
  {
    After(Done(200, None), t[id := UpdatedRecord(e.keyAttr, id, body, extra)])
  }

  /** toggle: `set enabled = :e` on the item with the path id. An update creates the item when it
      is absent; an `enabled` missing from the body is an `undefined` value the document client
      refuses, a 500. */
  function ToggleSpec(t: Table, e: Entity, id: string, body: Object): After
    requires id != ""
  {
    match Get(body, "enabled")
    case None => After(Refused(500, ToggleFailed), t)
    case Some(v) =>
      var current := if id in t then t[id] else map[e.keyAttr := Str(id)];
      After(Done(200, None), t[id := current["enabled" := v]])
  }

  // ---- add ----

  /** `enabled` and `createdAt` are set after the body: whatever the body says, the added item
      is enabled and carries the server's timestamp. Every other attribute that `extra` does not
      set and that is not the key comes from the body unchanged. */
  lemma AddForcesEnabledAndCreatedAt(t: Table, e: Entity, body: Object, extra: Object, newId: string, now: string)
    requires WellFormed(e) && "enabled" !in extra && "createdAt" !in extra
    requires AddSpec(t, e, body, extra, newId, now).reply.Done?
    ensures var r := AddSpec(t, e, body, extra, newId, now).reply.item.value;
      && r["enabled"] == Bool(true) && r["createdAt"] == Str(now)
      && forall a :: a in body && a != e.keyAttr && a !in extra && a != "enabled" && a != "createdAt" ==> a in r && r[a] == body[a]
  {
  }

  /** The body is spread after the generated key: a key attribute in the body decides where the
      item goes, and the generated id is used only when the body has none. */
  lemma AddKeyComesFromBody(t: Table, e: Entity, body: Object, extra: Object, newId: string, now: string)
    requires WellFormed(e) && e.keyAttr !in extra
    ensures var r := NewRecord(e.keyAttr, newId, body, extra, now);
      Get(r, e.keyAttr) == if e.keyAttr in body then Some(body[e.keyAttr]) else Some(Str(newId))
  {
  }

  /** A key attribute that is not a non-empty string makes the put fail: 500, nothing written. */
  lemma AddRefusesBadKey(t: Table, e: Entity, body: Object, extra: Object, newId: string, now: string)
    requires WellFormed(e) && e.keyAttr !in extra
    requires if e.keyAttr in body then !IsKey(Some(body[e.keyAttr])) else newId == ""
    ensures AddSpec(t, e, body, extra, newId, now) == After(Refused(500, e.addFailed), t)
  {
    AddKeyComesFromBody(t, e, body, extra, newId, now);
  }

  /** With no key in the body and a fresh generated id, a successful add inserts exactly one
      item, under that id, and no other item changes. */
  lemma AddInsertsOneItem(t: Table, e: Entity, body: Object, extra: Object, newId: string, now: string)
    requires WellFormed(e) && e.keyAttr !in extra && e.keyAttr !in body
    requires newId != "" && newId !in t
    ensures var after := AddSpec(t, e, body, extra, newId, now);
      && after.reply == Done(201, Some(NewRecord(e.keyAttr, newId, body, extra, now)))
      && after.items.Keys == t.Keys + {newId}
      && (forall k :: k in t ==> after.items[k] == t[k])
      && after.items[newId] == NewRecord(e.keyAttr, newId, body, extra, now)
  {
    AddKeyComesFromBody(t, e, body, extra, newId, now);
  }

  /** add keeps every item under its own key. */
  lemma AddKeepsKeyed(t: Table, e: Entity, body: Object, extra: Object, newId: string, now: string)
    requires WellFormed(e) && KeyedBy(t, e.keyAttr)
    ensures KeyedBy(AddSpec(t, e, body, extra, newId, now).items, e.keyAttr)
  {
  }

  /** What add reports is what get then returns. */
  lemma GetAfterAdd(t: Table, e: Entity, body: Object, extra: Object, newId: string, now: string)
    requires AddSpec(t, e, body, extra, newId, now).reply.Done?
    ensures var after := AddSpec(t, e, body, extra, newId, now);
      GetSpec(after.items, e, Get(after.reply.item.value, e.keyAttr).value.s) == Done(200, after.reply.item)
  {
  }

  // ---- update ----

  /** update replaces the whole item: the key is the path id, whatever the body says, and the
      item has no attribute beyond the body's, `extra`'s and the key, so `enabled` and `createdAt`
      are lost unless the body sends them again. No other item changes. */
  lemma UpdateReplacesItem(t: Table, e: Entity, id: string, body: Object, extra: Object)
    requires id != ""
    ensures var after := UpdateSpec(t, e, id, body, extra);
      && after.reply == Done(200, None)
      && after.items.Keys == t.Keys + {id}
      && (forall k :: k in t && k != id ==> after.items[k] == t[k])
      && Get(after.items[id], e.keyAttr) == Some(Str(id))
      && (forall a :: a in after.items[id] ==> a in body || a in extra || a == e.keyAttr)
      && (forall a :: a in body && a !in extra && a != e.keyAttr ==> after.items[id][a] == body[a])
  {
  }

  /** An update whose body does not resend `enabled` leaves an item without it. */
  lemma UpdateDropsEnabled(t: Table, e: Entity, id: string, body: Object, extra: Object)
    requires WellFormed(e) && id != "" && "enabled" !in body && "enabled" !in extra
    ensures Get(UpdateSpec(t, e, id, body, extra).items[id], "enabled") == None
  {
  }

  /** update keeps every item under its own key. */
  lemma UpdateKeepsKeyed(t: Table, e: Entity, id: string, body: Object, extra: Object)
    requires id != "" && KeyedBy(t, e.keyAttr)
    ensures KeyedBy(UpdateSpec(t, e, id, body, extra).items, e.keyAttr)
  {
  }

  // ---- toggle ----

  /** toggle sets the `enabled` attribute of item `id` to the body's value and changes nothing
      else: every other attribute of the item and every other item stay as they were; an absent
      item comes into being holding only its key and `enabled`. Without `enabled` in the body
      nothing is written. */
  lemma ToggleSetsOnlyEnabled(t: Table, e: Entity, id: string, body: Object)
    requires WellFormed(e) && id != ""
    ensures var after := ToggleSpec(t, e, id, body);
      && ("enabled" !in body ==> after == After(Refused(500, ToggleFailed), t))
      && ("enabled" in body ==>
            && after.reply == Done(200, None)
            && after.items.Keys == t.Keys + {id}
            && (forall k :: k in t && k != id ==> after.items[k] == t[k])
            && after.items[id]["enabled"] == body["enabled"]
            && (id in t ==> forall a :: a != "enabled" ==> Get(after.items[id], a) == Get(t[id], a))
            && (id !in t ==> after.items[id] == map[e.keyAttr := Str(id), "enabled" := body["enabled"]]))
  {
  }

  /** Setting the same value twice is the same as setting it once. */
  lemma ToggleIdempotent(t: Table, e: Entity, id: string, body: Object)
    requires id != ""
    ensures var once := ToggleSpec(t, e, id, body);
      ToggleSpec(once.items, e, id, body) == once
  {
    var once := ToggleSpec(t, e, id, body);
    if "enabled" in body {
      var v := body["enabled"];
      var current := if id in t then t[id] else map[e.keyAttr := Str(id)];
      assert once.items[id] == current["enabled" := v];
      assert once.items[id]["enabled" := v] == current["enabled" := v];
    }
  }

  /** toggle keeps every item under its own key. */
  lemma ToggleKeepsKeyed(t: Table, e: Entity, id: string, body: Object)
    requires WellFormed(e) && id != "" && KeyedBy(t, e.keyAttr)
    ensures KeyedBy(ToggleSpec(t, e, id, body).items, e.keyAttr)
  {
  }
}
