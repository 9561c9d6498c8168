/** What each credential request leaves in the two stores, told entry by entry: values, fields, links and dates. */
module CredentialEffects {
  import opened CredentialStores
  import opened Wrappers

  // ---------------------------------------------------------------- what is compared

  /** The date of the link between a project and a resource. */
  function LinkDate(s: Stores, p: Project, rid: Identity): Option<string> {
    if p in s.registry.bindings && rid in s.registry.bindings[p].resources
    then Some(s.registry.bindings[p].resources[rid])
    else None
  }

  /** Name and root of a project that has a row. */
  function Face(s: Stores, p: Project): Option<(string, string)> {
    if p in s.registry.bindings then Some((s.registry.bindings[p].name, s.registry.bindings[p].root)) else None
  }

  function ResourceOf(s: Stores, rid: Identity): Option<Resource> {
    if rid in s.registry.resources then Some(s.registry.resources[rid]) else None
  }

  function CaptureOf(s: Stores, c: CaptureId): Option<Capture> {
    if c in s.registry.captures then Some(s.registry.captures[c]) else None
  }

  function ValueAt(s: Stores, slot: Slot): Option<string> { if slot in s.vault then Some(s.vault[slot]) else None }

  ghost predicate SameLinks(a: Stores, b: Stores) { a.registry.bindings == b.registry.bindings }

  ghost predicate SameResources(a: Stores, b: Stores) { a.registry.resources == b.registry.resources }

  ghost predicate SameCaptures(a: Stores, b: Stores) { a.registry.captures == b.registry.captures }

  // ---------------------------------------------------------------- links

  /** The link is there with its earlier date or with the present one, the row is refreshed, all else is as it was. */
  ghost predicate LinkAdded(a: Stores, b: Stores, project: ProjectIdentity, rid: Identity, now: string) {
    && LinkDate(b, project.key, rid) == (if LinkDate(a, project.key, rid).Some? then LinkDate(a, project.key, rid)
                                         else Some(now))
    && (forall q, r :: q != project.key || r != rid ==> LinkDate(b, q, r) == LinkDate(a, q, r))
    && Face(b, project.key) == Some((project.name, project.root))
    && (forall q :: q != project.key ==> Face(b, q) == Face(a, q))
  }

  lemma BindMeans(before: Stores, rid: Identity, project: ProjectIdentity, now: string, write: Write, after: Stores)
    requires Ends(before, Request.Bind(rid, project, true), now, write, after, Done)
    ensures LinkAdded(before, after, project, rid, now) && rid in before.registry.resources
    ensures SameResources(before, after) && SameCaptures(before, after) && after.vault == before.vault
  {
    assert Apply(before.vault, map[]) == before.vault;
  }

  /**
   * After an unlink the project reads nothing of the resource any more. Every other link is there with its date, and
   * the project keeps its row iff it is linked to another resource.
   */
  lemma UnlinkMeans(before: Stores, rid: Identity, p: Project, now: string, write: Write, after: Stores)
    requires Ends(before, Request.Unlink(rid, p, true), now, write, after, Done)
    ensures forall f :: !FieldValue(after, rid, p, f).Value?
    ensures LinkDate(before, p, rid).Some? && LinkDate(after, p, rid).None?
    ensures forall q, r :: q != p || r != rid ==> LinkDate(after, q, r) == LinkDate(before, q, r)
    ensures p in after.registry.bindings <==> exists r :: r != rid && LinkDate(before, p, r).Some?
    ensures p in after.registry.bindings ==> Face(after, p) == Face(before, p)
    ensures forall q :: q != p ==> Face(after, q) == Face(before, q)
    ensures SameResources(before, after) && SameCaptures(before, after) && after.vault == before.vault
  {
    assert Apply(before.vault, map[]) == before.vault;
    var left := before.registry.bindings[p].resources - {rid};
    assert left != map[] <==> exists r :: r in left.Keys;
    forall r ensures r in left.Keys <==> r != rid && LinkDate(before, p, r).Some? {
    }
  }

  // ---------------------------------------------------------------- deletion

  /**
   * Of the resource nothing is left: neither its row, nor a value in the vault, nor a link, nor a row without links.
   */
  lemma DeleteMeans(before: Stores, rid: Identity, now: string, write: Write, after: Stores)
    requires Agree(before) && Ends(before, Request.DeleteResource(rid, true), now, write, after, Done)
    ensures ResourceOf(before, rid).Some? && ResourceOf(after, rid).None?
    ensures forall r :: r != rid ==> ResourceOf(after, r) == ResourceOf(before, r)
    ensures forall q :: LinkDate(after, q, rid).None?
    ensures forall q, r :: r != rid ==> LinkDate(after, q, r) == LinkDate(before, q, r)
    ensures forall q :: q in after.registry.bindings <==> exists r :: r != rid && LinkDate(before, q, r).Some?
    ensures forall q :: q in after.registry.bindings ==> Face(after, q) == Face(before, q)
    ensures forall f :: ValueAt(after, Stored(rid, f)).None?
    ensures forall slot: Slot :: (slot.Stored? ==> slot.rid != rid) ==> ValueAt(after, slot) == ValueAt(before, slot)
    ensures SameCaptures(before, after)
  {
    DoneMeans(before, Request.DeleteResource(rid, true), now, write, after);
    DeletedLinks(before, rid, after);
    DeletedValues(before, rid, after.vault);
  }

  lemma DeletedValues(before: Stores, rid: Identity, w: Vault)
    requires Agree(before) && rid in before.registry.resources
    requires w == Apply(before.vault, Cleared(ResourceSlots(rid, before.registry.resources[rid].fields)))
    ensures forall f :: Stored(rid, f) !in w
    ensures forall slot: Slot :: (slot.Stored? ==> slot.rid != rid) ==> Lookup(w, slot) == Lookup(before.vault, slot)
  {
    var change := Cleared(ResourceSlots(rid, before.registry.resources[rid].fields));
    forall f ensures Stored(rid, f) !in w {
      InApply(before.vault, change, Stored(rid, f));
      assert Stored(rid, f) in before.vault <==> Stored(rid, f) in Named(before.registry);
    }
    forall slot: Slot | slot.Stored? ==> slot.rid != rid ensures Lookup(w, slot) == Lookup(before.vault, slot) {
      InApply(before.vault, change, slot);
    }
  }

  lemma DeletedLinks(before: Stores, rid: Identity, after: Stores)
    requires after.registry == WithoutResource(before.registry, rid)
    ensures forall q :: LinkDate(after, q, rid).None?
    ensures forall q, r :: r != rid ==> LinkDate(after, q, r) == LinkDate(before, q, r)
    ensures forall q :: q in after.registry.bindings <==> exists r :: r != rid && LinkDate(before, q, r).Some?
    ensures forall q :: q in after.registry.bindings ==> Face(after, q) == Face(before, q)
  {
    forall q | q in before.registry.bindings
      ensures before.registry.bindings[q].resources - {rid} != map[] <==>
              exists r :: r != rid && LinkDate(before, q, r).Some?
    {
      var left := before.registry.bindings[q].resources - {rid};
      assert left != map[] <==> exists r :: r in left.Keys;
      forall r ensures r in left.Keys <==> r != rid && LinkDate(before, q, r).Some? {
      }
    }
  }

  // ---------------------------------------------------------------- saving

  /** The resource has its old and the new fields and keeps the date of its creation; no other resource changes. */
  ghost predicate ResourceSaved(a: Stores, b: Stores, identity: Identity, fields: set<Field>, now: string) {
    && ResourceOf(b, identity) == Some(
         match ResourceOf(a, identity)
         case Some(old_row) => Resource(identity, old_row.fields + fields, old_row.created, now)
         case None => Resource(identity, fields, now, now))
    && (forall r :: r != identity ==> ResourceOf(b, r) == ResourceOf(a, r))
  }

  ghost predicate LinkedAsAsked(a: Stores, b: Stores, identity: Identity, project: Option<ProjectIdentity>, bind: bool,
                                now: string) {
    if bind then project.Some? && LinkAdded(a, b, project.value, identity, now) else SameLinks(a, b)
  }

  function FieldsOf(values: seq<(Field, string)>): set<Field> { set i | 0 <= i < |values| :: values[i].0 }

  lemma SavedFields(values: seq<(Field, string)>)
    requires Consistent(values)
    ensures AsMap(values).Keys == FieldsOf(values)
  {
    AsMapHolds(values);
    forall f | f in AsMap(values) ensures f in FieldsOf(values) {
      var i :| 0 <= i < |values| && values[i] == (f, AsMap(values)[f]);
      assert values[i].0 == f;
    }
  }

  lemma SaveMeans(before: Stores, identity: Identity, values: seq<(Field, string)>, project: Option<ProjectIdentity>,
                  bind: bool, authorized: bool, now: string, write: Write, after: Stores)
    requires Ends(before, Request.Save(identity, values, project, bind, authorized), now, write, after, Done)
    ensures ResourceSaved(before, after, identity, FieldsOf(values), now)
    ensures LinkedAsAsked(before, after, identity, project, bind, now) && SameCaptures(before, after)
    ensures forall i :: 0 <= i < |values| ==> ValueAt(after, Stored(identity, values[i].0)) == Some(values[i].1)
    ensures forall slot: Slot :: (slot.Stored? && slot.rid == identity ==> slot.field !in FieldsOf(values)) ==>
                                   ValueAt(after, slot) == ValueAt(before, slot)
  {
    DoneMeans(before, Request.Save(identity, values, project, bind, authorized), now, write, after);
    SavedFields(values);
    Linked(before.registry, identity, AsMap(values).Keys, project, bind, now, before, after);
    StoredAre(before, after, identity, AsMap(values));
    AsMapHolds(values);
  }

  lemma StoredAre(a: Stores, b: Stores, identity: Identity, given: map<Field, string>)
    requires b.vault == Apply(a.vault, StoredSlots(identity, given))
    ensures forall f :: f in given ==> ValueAt(b, Stored(identity, f)) == Some(given[f])
    ensures forall slot: Slot :: (slot.Stored? && slot.rid == identity ==> slot.field !in given.Keys) ==>
                                   ValueAt(b, slot) == ValueAt(a, slot)
  {
    forall f | f in given ensures ValueAt(b, Stored(identity, f)) == Some(given[f]) {
      HeldStored(a.vault, identity, given, Stored(identity, f));
    }
    forall slot: Slot | slot.Stored? && slot.rid == identity ==> slot.field !in given.Keys
      ensures ValueAt(b, slot) == ValueAt(a, slot)
    {
      HeldStored(a.vault, identity, given, slot);
    }
  }

  lemma HeldStored(v: Vault, identity: Identity, values: map<Field, string>, slot: Slot)
    ensures Lookup(Apply(v, StoredSlots(identity, values)), slot) ==
              if slot.Stored? && slot.rid == identity && slot.field in values then Some(values[slot.field])
              else Lookup(v, slot)
  {
    InApply(v, StoredSlots(identity, values), slot);
  }

  /** The registry after a save, or after a confirmation but for its capture. */
  lemma Linked(r: Registry, identity: Identity, fields: set<Field>, project: Option<ProjectIdentity>, bind: bool,
               now: string, before: Stores, after: Stores)
    requires before.registry == r && (bind ==> project.Some?)
    requires var upserted := Upserted(r, identity, fields, now);
             var linked := if bind then Bound(upserted, identity, project.value, now) else upserted;
             after.registry.resources == linked.resources && after.registry.bindings == linked.bindings
    ensures ResourceSaved(before, after, identity, fields, now)
    ensures LinkedAsAsked(before, after, identity, project, bind, now)
  {
  }

  // ---------------------------------------------------------------- captures

  /** The row of a capture: its fields, its date, the project, and the hint if both its parts are given. */
  function CaptureRow(values: seq<(Field, string)>, now: string, project: Option<ProjectIdentity>,
                      typeHint: Option<string>, originHint: Option<string>): Capture
  {
    Capture(FieldsOf(values), now, match project case Some(p) => Some(p.key) case None => None,
            match (typeHint, originHint) case (Some(t), Some(o)) => Some((t, o)) case _ => None)
  }

  /** A capture is noted, and its values are in the vault. */
  lemma CaptureMeans(before: Stores, capture: CaptureId, allowed: bool, values: seq<(Field, string)>,
                     typeHint: Option<string>, originHint: Option<string>, project: Option<ProjectIdentity>,
                     now: string, write: Write, after: Stores)
    requires Ends(before, Request.CaptureDetection(capture, allowed, values, typeHint, originHint, project), now, write,
                  after, Done)
    ensures CaptureOf(after, capture) == Some(CaptureRow(values, now, project, typeHint, originHint))
    ensures forall c :: c != capture ==> CaptureOf(after, c) == CaptureOf(before, c)
    ensures SameResources(before, after) && SameLinks(before, after)
    ensures forall i :: 0 <= i < |values| ==> ValueAt(after, Pending(capture, values[i].0)) == Some(values[i].1)
    ensures forall slot: Slot :: (slot.Pending? && slot.capture == capture ==> slot.field !in FieldsOf(values)) ==>
                                   ValueAt(after, slot) == ValueAt(before, slot)
  {
    CapturePlan(before, capture, allowed, values, typeHint, originHint, project, now, write, after);
    CapturedAre(before, after, capture, AsMap(values));
    SavedFields(values);
    AsMapHolds(values);
  }

  lemma CapturePlan(before: Stores, capture: CaptureId, allowed: bool, values: seq<(Field, string)>,
                    typeHint: Option<string>, originHint: Option<string>, project: Option<ProjectIdentity>,
                    now: string, write: Write, after: Stores)
    requires Ends(before, Request.CaptureDetection(capture, allowed, values, typeHint, originHint, project), now, write,
                  after, Done)
    ensures Consistent(values) && after.vault == Apply(before.vault, CapturedSlots(capture, AsMap(values)))
    ensures var row := CaptureRow(values, now, project, typeHint, originHint);
            after.registry == before.registry.(captures := before.registry.captures[capture := row])
  {
    DoneMeans(before, Request.CaptureDetection(capture, allowed, values, typeHint, originHint, project), now, write,
              after);
    PlannedCapture(before.registry, capture, allowed, values, typeHint, originHint, project, now);
  }

  lemma PlannedCapture(r: Registry, capture: CaptureId, allowed: bool, values: seq<(Field, string)>,
                       typeHint: Option<string>, originHint: Option<string>, project: Option<ProjectIdentity>,
                       now: string)
    requires PlanCapture(r, capture, allowed, values, typeHint, originHint, project, now).Move?
    ensures Consistent(values)
    ensures PlanCapture(r, capture, allowed, values, typeHint, originHint, project, now) ==
              Move(CapturedSlots(capture, AsMap(values)),
                   r.(captures := r.captures[capture := CaptureRow(values, now, project, typeHint, originHint)]))
  {
    SavedFields(values);
  }

  lemma CapturedAre(a: Stores, b: Stores, capture: CaptureId, given: map<Field, string>)
    requires b.vault == Apply(a.vault, CapturedSlots(capture, given))
    ensures forall f :: f in given ==> ValueAt(b, Pending(capture, f)) == Some(given[f])
    ensures forall slot: Slot :: (slot.Pending? && slot.capture == capture ==> slot.field !in given.Keys) ==>
                                   ValueAt(b, slot) == ValueAt(a, slot)
  {
    forall f | f in given ensures ValueAt(b, Pending(capture, f)) == Some(given[f]) {
      HeldCapture(a.vault, capture, given, Pending(capture, f));
    }
    forall slot: Slot | slot.Pending? && slot.capture == capture ==> slot.field !in given.Keys
      ensures ValueAt(b, slot) == ValueAt(a, slot)
    {
      HeldCapture(a.vault, capture, given, slot);
    }
  }

  lemma HeldCapture(v: Vault, capture: CaptureId, values: map<Field, string>, slot: Slot)
    ensures Lookup(Apply(v, CapturedSlots(capture, values)), slot) ==
              if slot.Pending? && slot.capture == capture && slot.field in values then Some(values[slot.field])
              else Lookup(v, slot)
  {
    InApply(v, CapturedSlots(capture, values), slot);
  }

  /** Of a discarded capture nothing is left. */
  lemma DiscardMeans(before: Stores, capture: CaptureId, now: string, write: Write, after: Stores)
    requires Agree(before) && Ends(before, Request.DiscardPending(capture, true), now, write, after, Done)
    ensures CaptureOf(before, capture).Some? && CaptureOf(after, capture).None?
    ensures forall c :: c != capture ==> CaptureOf(after, c) == CaptureOf(before, c)
    ensures SameResources(before, after) && SameLinks(before, after)
    ensures forall f :: ValueAt(after, Pending(capture, f)).None?
    ensures forall slot: Slot :: (slot.Pending? ==> slot.capture != capture) ==>
                ValueAt(after, slot) == ValueAt(before, slot)
  {
    DoneMeans(before, Request.DiscardPending(capture, true), now, write, after);
    DiscardedValues(before, capture, after.vault);
  }

  lemma DiscardedValues(before: Stores, capture: CaptureId, w: Vault)
    requires Agree(before) && capture in before.registry.captures
    requires w == Apply(before.vault, Cleared(PendingSlots(capture, before.registry.captures[capture].fields)))
    ensures forall f :: Pending(capture, f) !in w
    ensures forall slot: Slot ::
              (slot.Pending? ==> slot.capture != capture) ==> Lookup(w, slot) == Lookup(before.vault, slot)
  {
    var change := Cleared(PendingSlots(capture, before.registry.captures[capture].fields));
    forall f ensures Pending(capture, f) !in w {
      InApply(before.vault, change, Pending(capture, f));
      PendingIsNamed(before, capture, f);
    }
    forall slot: Slot | slot.Pending? ==> slot.capture != capture
      ensures Lookup(w, slot) == Lookup(before.vault, slot)
    {
      InApply(before.vault, change, slot);
    }
  }

  predicate Moves(slot: Slot, capture: CaptureId, identity: Identity, fields: set<Field>) {
    match slot
    case Pending(c, _) => c == capture
    case Stored(rid, f) => rid == identity && f in fields
  }

  /** A confirmed capture becomes a resource. */
  lemma ConfirmMeans(before: Stores, capture: CaptureId, identity: Identity, project: Option<ProjectIdentity>,
                     bind: bool, now: string, write: Write, after: Stores)
    requires Ends(before, Request.ConfirmPending(capture, identity, project, bind, true), now, write, after, Done)
    ensures CaptureOf(before, capture).Some? && CaptureOf(after, capture).None?
    ensures forall c :: c != capture ==> CaptureOf(after, c) == CaptureOf(before, c)
    ensures ResourceSaved(before, after, identity, before.registry.captures[capture].fields, now)
    ensures LinkedAsAsked(before, after, identity, project, bind, now)
  {
    var values := ConfirmPlan(before, capture, identity, project, bind, now, write, after);
    ConfirmedRegistry(before, capture, identity, project, bind, now, after);
  }

  /** Its values move to the resource, and no other value moves. */
  lemma ConfirmMoves(before: Stores, capture: CaptureId, identity: Identity, project: Option<ProjectIdentity>,
                     bind: bool, now: string, write: Write, after: Stores, f: Field, slot: Slot)
    requires Agree(before)
    requires Ends(before, Request.ConfirmPending(capture, identity, project, bind, true), now, write, after, Done)
    ensures capture in before.registry.captures
    ensures f in before.registry.captures[capture].fields ==>
              ValueAt(after, Stored(identity, f)).Some? &&
              ValueAt(after, Stored(identity, f)) == ValueAt(before, Pending(capture, f))
    ensures ValueAt(after, Pending(capture, f)).None?
    ensures !Moves(slot, capture, identity, before.registry.captures[capture].fields) ==>
              ValueAt(after, slot) == ValueAt(before, slot)
  {
    var values := ConfirmPlan(before, capture, identity, project, bind, now, write, after);
    ConfirmedAt(before, capture, identity, values, f);
    if !Moves(slot, capture, identity, before.registry.captures[capture].fields) {
      SameFields(before.vault, capture, before.registry.captures[capture].fields, values);
      UnmovedAt(before.vault, capture, identity, values, slot);
    }
  }

  lemma ConfirmPlan(before: Stores, capture: CaptureId, identity: Identity, project: Option<ProjectIdentity>,
                    bind: bool, now: string, write: Write, after: Stores)
    returns (values: map<Field, string>)
    requires Ends(before, Request.ConfirmPending(capture, identity, project, bind, true), now, write, after, Done)
    ensures capture in before.registry.captures && (bind ==> project.Some?)
    ensures CapturedValues(before.vault, capture, before.registry.captures[capture].fields) == Some(values)
    ensures after.vault == Apply(before.vault, Moved(capture, identity, values))
    ensures var upserted := Upserted(before.registry, identity, before.registry.captures[capture].fields, now);
            var linked := if bind then Bound(upserted, identity, project.value, now) else upserted;
            after.registry == linked.(captures := linked.captures - {capture})
  {
    DoneMeans(before, Request.ConfirmPending(capture, identity, project, bind, true), now, write, after);
    values := PlannedConfirm(before, capture, identity, project, bind, now);
  }

  lemma DoneMeans(before: Stores, request: Request, now: string, write: Write, after: Stores)
    requires Ends(before, request, now, write, after, Done)
    ensures Planned(before, request, now).Move?
    ensures after.vault == Apply(before.vault, Planned(before, request, now).change)
    ensures after.registry == Planned(before, request, now).registry
  {
  }

  lemma PlannedConfirm(s: Stores, capture: CaptureId, identity: Identity, project: Option<ProjectIdentity>, bind: bool,
                       now: string)
    returns (values: map<Field, string>)
    requires Planned(s, Request.ConfirmPending(capture, identity, project, bind, true), now).Move?
    ensures capture in s.registry.captures && (bind ==> project.Some?)
    ensures CapturedValues(s.vault, capture, s.registry.captures[capture].fields) == Some(values)
    ensures var plan := Planned(s, Request.ConfirmPending(capture, identity, project, bind, true), now);
            var upserted := Upserted(s.registry, identity, s.registry.captures[capture].fields, now);
            var linked := if bind then Bound(upserted, identity, project.value, now) else upserted;
            plan == Move(Moved(capture, identity, values), linked.(captures := linked.captures - {capture}))
  {
    values := CapturedValues(s.vault, capture, s.registry.captures[capture].fields).value;
  }

  lemma ConfirmedRegistry(before: Stores, capture: CaptureId, identity: Identity, project: Option<ProjectIdentity>,
                          bind: bool, now: string, after: Stores)
    requires capture in before.registry.captures && (bind ==> project.Some?)
    requires var upserted := Upserted(before.registry, identity, before.registry.captures[capture].fields, now);
             var linked := if bind then Bound(upserted, identity, project.value, now) else upserted;
             after.registry == linked.(captures := linked.captures - {capture})
    ensures CaptureOf(after, capture).None?
    ensures forall c :: c != capture ==> CaptureOf(after, c) == CaptureOf(before, c)
    ensures ResourceSaved(before, after, identity, before.registry.captures[capture].fields, now)
    ensures LinkedAsAsked(before, after, identity, project, bind, now)
  {
    Linked(before.registry, identity, before.registry.captures[capture].fields, project, bind, now, before, after);
  }

  lemma SameFields(v: Vault, capture: CaptureId, fields: set<Field>, values: map<Field, string>)
    requires CapturedValues(v, capture, fields) == Some(values)
    ensures values.Keys == fields
  {
  }

  lemma ConfirmedAt(before: Stores, capture: CaptureId, identity: Identity, values: map<Field, string>, f: Field)
    requires Agree(before) && capture in before.registry.captures
    requires CapturedValues(before.vault, capture, before.registry.captures[capture].fields) == Some(values)
    ensures Lookup(Apply(before.vault, Moved(capture, identity, values)), Pending(capture, f)).None?
    ensures f in before.registry.captures[capture].fields ==>
              Lookup(Apply(before.vault, Moved(capture, identity, values)), Stored(identity, f)).Some? &&
              Lookup(Apply(before.vault, Moved(capture, identity, values)), Stored(identity, f)) ==
                Lookup(before.vault, Pending(capture, f))
  {
    MovedHeld(before.vault, capture, identity, values, f);
    PendingIsNamed(before, capture, f);
  }

  lemma UnmovedAt(v: Vault, capture: CaptureId, identity: Identity, values: map<Field, string>, slot: Slot)
    requires !Moves(slot, capture, identity, values.Keys)
    ensures Lookup(Apply(v, Moved(capture, identity, values)), slot) == Lookup(v, slot)
  {
    InApply(v, Moved(capture, identity, values), slot);
  }

  // ---------------------------------------------------------------- requests that are not carried out

  /**
   * What is not carried out leaves the vault as it was, unless its undoing failed too; the registry stays, unless the
   * write of the new one raised after putting it in place.
   */
  lemma NotDoneMeans(before: Stores, request: Request, now: string, write: Write, after: Stores, result: Result)
    requires Ends(before, request, now, write, after, result) && !result.Done?
    ensures result.Unconfirmed? || after.vault == before.vault
    ensures after.registry == before.registry || (
              && (result.RolledBack? || result.Unconfirmed?) && write.FailsAfterReplace?
              && Planned(before, request, now).Move? && after.registry == Planned(before, request, now).registry)
  {
  }

  // ---------------------------------------------------------------- when a request is refused, and when it is empty

  /**
   * Whatever binds, unlinks, deletes, discards or confirms needs the authority of the user; binding needs a project.
   */
  predicate LacksAuthority(request: Request) {
    match request
    case Save(_, _, project, bind, authorized) => bind && (project.None? || !authorized)
    case CaptureDetection(_, _, _, _, _, _) => false
    case ConfirmPending(_, _, project, bind, authorized) => !authorized || (bind && project.None?)
    case _ => !request.authorized
  }

  predicate Contradictory(values: seq<(Field, string)>) {
    exists i, j :: 0 <= i < |values| && 0 <= j < |values| && values[i].0 == values[j].0 && values[i].1 != values[j].1
  }

  predicate EmptyOrTooLong(values: seq<(Field, string)>) {
    exists i :: 0 <= i < |values| && (values[i].1 == "" || |values[i].1| > 16384)
  }

  lemma InputsAre(values: seq<(Field, string)>)
    ensures Consistent(values) <==> !Contradictory(values)
    ensures AllBounded(values) <==> !EmptyOrTooLong(values)
  {
    if Contradictory(values) {
      var i, j :| 0 <= i < |values| && 0 <= j < |values| && values[i].0 == values[j].0 && values[i].1 != values[j].1;
      assert i < j || j < i;
    }
    if !Consistent(values) {
      var i, j :| 0 <= i < j < |values| && values[i].0 == values[j].0 && values[i].1 != values[j].1;
      assert Contradictory(values);
    }
    if !AllBounded(values) {
      var i :| 0 <= i < |values| && !BoundedText(values[i].1);
      assert values[i].1 == "" || |values[i].1| > 16384;
    }
  }

  /** The input of the request is wrong in itself: the first thing that is looked at after the authority. */
  predicate WrongInput(request: Request) {
    match request
    case Save(_, values, _, _, _) => values == [] || EmptyOrTooLong(values) || Contradictory(values)
    case CaptureDetection(_, allowed, values, _, _, _) => !allowed || values == []
    case _ => false
  }

  /** There is nothing that the request could change. */
  predicate NothingToDo(s: Stores, request: Request) {
    match request
    case Unlink(rid, p, _) => LinkDate(s, p, rid).None?
    case DeleteResource(rid, _) => ResourceOf(s, rid).None?
    case DiscardPending(c, _) => CaptureOf(s, c).None?
    case _ => false
  }

  /** Why a request that is authorized, right in itself and asked of a well-formed registry is still refused. */
  predicate StillRefused(s: Stores, request: Request, reason: Reason) {
    match reason
    case NotRegistered => request.Bind? && ResourceOf(s, request.rid).None?
    case BadValues => request.CaptureDetection? && Contradictory(request.values)
    case BadHint =>
      && request.CaptureDetection? && !Contradictory(request.values)
      && request.typeHint.Some? != request.originHint.Some?
    case NotFound => request.ConfirmPending? && CaptureOf(s, request.capture).None?
    case Incomplete =>
      && request.ConfirmPending? && CaptureOf(s, request.capture).Some?
      && exists f :: f in s.registry.captures[request.capture].fields && ValueAt(s, Pending(request.capture, f)) in
                       {None, Some("")}
    case _ => false
  }

  lemma RefusedExactlyWhen(s: Stores, request: Request, now: string, reason: Reason)
    ensures Planned(s, request, now) == Refuse(reason) <==>
              if LacksAuthority(request) then reason == NoAuthority
              else if WrongInput(request) then reason == if request.Save? then BadValues else NotCapturable
              else if !RegistryOk(s.registry) then reason == MalformedRegistry
              else StillRefused(s, request, reason)
  {
    if request.Save? || request.CaptureDetection? {
      InputsAre(request.values);
    }
  }

  lemma NothingExactlyWhen(s: Stores, request: Request, now: string)
    ensures Planned(s, request, now).Nothing? <==>
              !LacksAuthority(request) && RegistryOk(s.registry) && NothingToDo(s, request)
  {
  }
}
