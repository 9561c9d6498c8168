/**
 * The two stores of the credential broker: secrets in the OS vault, and the metadata registry that names them. What
 * each request plans to do to both, how an attempt can end, and when the two still agree afterwards.
 */
module CredentialStores {
  import opened Wrappers

  type Field = string
  type Project = string
  type CaptureId = string

  const MAX_SECRET := 16 * 1024

  /** A normalized service identity. It stands for the resource id too, which is a hash of exactly these parts. */
  datatype Identity = Identity(service: string, origin: string, account: string)

  datatype Slot = Stored(rid: Identity, field: Field) | Pending(capture: CaptureId, field: Field)

  type Vault = map<Slot, string>

  /** The vault writes of one request: a value to set, or None to delete. */
  type Change = map<Slot, Option<string>>

  datatype Resource = Resource(identity: Identity, fields: set<Field>, created: string, updated: string)
  datatype Binding = Binding(name: string, root: string, resources: map<Identity, string>)
  datatype Capture = Capture(fields: set<Field>, created: string, project: Option<Project>,
                             hint: Option<(string, string)>)
  datatype Registry = Registry(
    resources: map<Identity, Resource>,
    bindings: map<Project, Binding>,
    captures: map<CaptureId, Capture>)
  datatype Stores = Stores(vault: Vault, registry: Registry)

  datatype ProjectIdentity = ProjectIdentity(key: Project, name: string, root: string)

  const EMPTY := Stores(map[], Registry(map[], map[], map[]))

  // ---------------------------------------------------------------- what the registry must look like

  /** The structural part of _validate_registry. */
  predicate RegistryOk(r: Registry) {
    && (forall rid :: rid in r.resources ==> r.resources[rid].identity == rid && r.resources[rid].fields != {})
    && (forall p :: p in r.bindings ==> r.bindings[p].resources.Keys <= r.resources.Keys)
    && (forall c :: c in r.captures ==> r.captures[c].fields != {})
  }

  /** The vault entries that the registry names. */
  function Named(r: Registry): set<Slot> {
    (set rid, f | rid in r.resources && f in r.resources[rid].fields :: Stored(rid, f))
    + (set c, f | c in r.captures && f in r.captures[c].fields :: Pending(c, f))
  }

  /** A well-formed registry that names exactly the entries of the vault, all registered secrets non-empty. */
  predicate Agree(s: Stores) {
    && RegistryOk(s.registry)
    && s.vault.Keys == Named(s.registry)
    && (forall slot :: slot in s.vault && slot.Stored? ==> s.vault[slot] != "")
  }

  // ---------------------------------------------------------------- vault entries

  function Lookup(v: Vault, slot: Slot): Option<string> {
    if slot in v then Some(v[slot]) else None
  }

  function Put(v: Vault, slot: Slot, value: Option<string>): Vault {
    if value.Some? then v[slot := value.value] else v - {slot}
  }

  function Held(v: Vault, change: Change, slot: Slot): Option<string> {
    if slot in change then change[slot] else Lookup(v, slot)
  }

  /** The vault after all writes of a change. */
  function Apply(v: Vault, change: Change): Vault {
    map slot | slot in v.Keys + change.Keys && Held(v, change, slot).Some? :: Held(v, change, slot).value
  }

  // ---------------------------------------------------------------- field values

  /** Two spellings of one field may occur, but only with one value. */
  predicate Consistent(values: seq<(Field, string)>) {
    forall i, j :: 0 <= i < j < |values| && values[i].0 == values[j].0 ==> values[i].1 == values[j].1
  }

  predicate BoundedText(value: string) { 0 < |value| <= MAX_SECRET }

  predicate AllBounded(values: seq<(Field, string)>) {
    forall i :: 0 <= i < |values| ==> BoundedText(values[i].1)
  }

  function AsMap(values: seq<(Field, string)>): map<Field, string> {
    if values == [] then map[] else AsMap(values[..|values| - 1])[values[|values| - 1].0 := values[|values| - 1].1]
  }

  /** The map holds every given value under its field, and nothing else. */
  lemma {:induction false} AsMapHolds(values: seq<(Field, string)>)
    requires Consistent(values)
    ensures forall i :: 0 <= i < |values| ==> values[i].0 in AsMap(values) && AsMap(values)[values[i].0] == values[i].1
    ensures forall f :: f in AsMap(values) ==> (f, AsMap(values)[f]) in values
  {
    if values != [] {
      AsMapHolds(values[..|values| - 1]);
    }
  }

  // ---------------------------------------------------------------- registry edits

  function Upserted(r: Registry, identity: Identity, fields: set<Field>, now: string): Registry {
    var row :=
      if identity in r.resources then
        Resource(identity, r.resources[identity].fields + fields, r.resources[identity].created, now)
      else
        Resource(identity, fields, now, now);
    r.(resources := r.resources[identity := row])
  }

  /** _bind_row: a new or refreshed project row that keeps the date of an earlier binding. */
  function Bound(r: Registry, rid: Identity, project: ProjectIdentity, now: string): Registry {
    var linked := if project.key in r.bindings then r.bindings[project.key].resources else map[];
    var row := Binding(project.name, project.root, if rid in linked then linked else linked[rid := now]);
    r.(bindings := r.bindings[project.key := row])
  }

  function Unlinked(r: Registry, rid: Identity, project: Project): Registry
    requires project in r.bindings
  {
    var left := r.bindings[project].resources - {rid};
    if left == map[] then r.(bindings := r.bindings - {project})
    else r.(bindings := r.bindings[project := r.bindings[project].(resources := left)])
  }

  /** Without the resource, without its links, and without the project rows that are left empty. */
  function WithoutResource(r: Registry, rid: Identity): Registry {
    r.(resources := r.resources - {rid},
       bindings := map p | p in r.bindings && r.bindings[p].resources - {rid} != map[] ::
         r.bindings[p].(resources := r.bindings[p].resources - {rid}))
  }

  // ---------------------------------------------------------------- requests

  datatype Request =
    | Save(identity: Identity, values: seq<(Field, string)>, project: Option<ProjectIdentity>, bind: bool,
           authorized: bool)
    | Bind(rid: Identity, target: ProjectIdentity, authorized: bool)
    | Unlink(rid: Identity, from: Project, authorized: bool)
    | DeleteResource(rid: Identity, authorized: bool)
    | CaptureDetection(capture: CaptureId, allowed: bool, values: seq<(Field, string)>, typeHint: Option<string>,
                       originHint: Option<string>, project: Option<ProjectIdentity>)
    | DiscardPending(capture: CaptureId, authorized: bool)
    | ConfirmPending(capture: CaptureId, identity: Identity, project: Option<ProjectIdentity>, bind: bool,
                     authorized: bool)

  datatype Reason =
    | NoAuthority | BadValues | NotRegistered | NotFound | Incomplete | NotCapturable | BadHint | MalformedRegistry

  datatype Plan = Refuse(reason: Reason) | Nothing | Move(change: Change, registry: Registry)

  function StoredSlots(rid: Identity, values: map<Field, string>): Change {
    map slot | slot in (set f | f in values :: Stored(rid, f)) :: Some(values[slot.field])
  }

  function CapturedSlots(capture: CaptureId, values: map<Field, string>): Change {
    map slot | slot in PendingSlots(capture, values.Keys) :: Some(values[slot.field])
  }

  /** Every captured value is written to the resource and deleted from the capture. */
  function Moved(capture: CaptureId, identity: Identity, values: map<Field, string>): Change {
    StoredSlots(identity, values) + Cleared(PendingSlots(capture, values.Keys))
  }

  function Cleared(slots: set<Slot>): Change { map slot | slot in slots :: None }

  function PendingSlots(capture: CaptureId, fields: set<Field>): set<Slot> {
    set f | f in fields :: Pending(capture, f)
  }

  function ResourceSlots(rid: Identity, fields: set<Field>): set<Slot> { set f | f in fields :: Stored(rid, f) }

  /** The captured values that a confirmation moves; None when one of them is missing or empty. */
  function CapturedValues(v: Vault, capture: CaptureId, fields: set<Field>): Option<map<Field, string>> {
    if forall f :: f in fields ==> Pending(capture, f) in v && v[Pending(capture, f)] != ""
    then Some(map f | f in fields :: v[Pending(capture, f)])
    else None
  }

  function HintOf(typeHint: Option<string>, originHint: Option<string>): Option<(string, string)> {
    if typeHint.Some? && originHint.Some? then Some((typeHint.value, originHint.value)) else None
  }

  function KeyOf(project: Option<ProjectIdentity>): Option<Project> {
    if project.Some? then Some(project.value.key) else None
  }

  function PlanSave(s: Stores, identity: Identity, values: seq<(Field, string)>, project: Option<ProjectIdentity>,
                    bind: bool, authorized: bool, now: string): Plan {
    if bind && (project.None? || !authorized) then Refuse(NoAuthority)
    else if !AllBounded(values) || !Consistent(values) || values == [] then Refuse(BadValues)
    else if !RegistryOk(s.registry) then Refuse(MalformedRegistry)
    else
      var upserted := Upserted(s.registry, identity, AsMap(values).Keys, now);
      Move(StoredSlots(identity, AsMap(values)), if bind then Bound(upserted, identity, project.value, now)
           else upserted)
  }

  function PlanBind(r: Registry, rid: Identity, project: ProjectIdentity, authorized: bool, now: string): Plan {
    if !authorized then Refuse(NoAuthority)
    else if !RegistryOk(r) then Refuse(MalformedRegistry)
    else if rid !in r.resources then Refuse(NotRegistered)
    else Move(map[], Bound(r, rid, project, now))
  }

  function PlanUnlink(r: Registry, rid: Identity, project: Project, authorized: bool): Plan {
    if !authorized then Refuse(NoAuthority)
    else if !RegistryOk(r) then Refuse(MalformedRegistry)
    else if project !in r.bindings || rid !in r.bindings[project].resources then Nothing
    else Move(map[], Unlinked(r, rid, project))
  }

  function PlanDelete(r: Registry, rid: Identity, authorized: bool): Plan {
    if !authorized then Refuse(NoAuthority)
    else if !RegistryOk(r) then Refuse(MalformedRegistry)
    else if rid !in r.resources then Nothing
    else Move(Cleared(ResourceSlots(rid, r.resources[rid].fields)), WithoutResource(r, rid))
  }

  function PlanCapture(r: Registry, capture: CaptureId, allowed: bool, values: seq<(Field, string)>,
                       typeHint: Option<string>,
                       originHint: Option<string>, project: Option<ProjectIdentity>, now: string): Plan {
    if !allowed || values == [] then Refuse(NotCapturable)
    else if !RegistryOk(r) then Refuse(MalformedRegistry)
    else if !Consistent(values) then Refuse(BadValues)
    else if typeHint.Some? != originHint.Some? then Refuse(BadHint)
    else
      var row := Capture(AsMap(values).Keys, now, KeyOf(project), HintOf(typeHint, originHint));
      Move(CapturedSlots(capture, AsMap(values)), r.(captures := r.captures[capture := row]))
  }

  function PlanDiscard(r: Registry, capture: CaptureId, authorized: bool): Plan {
    if !authorized then Refuse(NoAuthority)
    else if !RegistryOk(r) then Refuse(MalformedRegistry)
    else if capture !in r.captures then Nothing
    else Move(Cleared(PendingSlots(capture, r.captures[capture].fields)), r.(captures := r.captures - {capture}))
  }

  function PlanConfirm(s: Stores, capture: CaptureId, identity: Identity, project: Option<ProjectIdentity>, bind: bool,
                       authorized: bool, now: string): Plan {
    if !authorized || (bind && project.None?) then Refuse(NoAuthority)
    else if !RegistryOk(s.registry) then Refuse(MalformedRegistry)
    else if capture !in s.registry.captures then Refuse(NotFound)
    else
      var fields := s.registry.captures[capture].fields;
      var values := CapturedValues(s.vault, capture, fields);
      if values.None? then Refuse(Incomplete)
      else
        var upserted := Upserted(s.registry, identity, fields, now);
        var linked := if bind then Bound(upserted, identity, project.value, now) else upserted;
        Move(Moved(capture, identity, values.value), linked.(captures := linked.captures - {capture}))
  }

  /** What a request does when every call succeeds. */
  function Planned(s: Stores, request: Request, now: string): Plan {
    match request
    case Save(identity, values, project, bind, authorized) =>
      PlanSave(s, identity, values, project, bind, authorized, now)
    case Bind(rid, project, authorized) => PlanBind(s.registry, rid, project, authorized, now)
    case Unlink(rid, project, authorized) => PlanUnlink(s.registry, rid, project, authorized)
    case DeleteResource(rid, authorized) => PlanDelete(s.registry, rid, authorized)
    case CaptureDetection(capture, allowed, values, typeHint, originHint, project) =>
      PlanCapture(s.registry, capture, allowed, values, typeHint, originHint, project, now)
    case DiscardPending(capture, authorized) => PlanDiscard(s.registry, capture, authorized)
    case ConfirmPending(capture, identity, project, bind, authorized) =>
      PlanConfirm(s, capture, identity, project, bind, authorized, now)
  }

  // ---------------------------------------------------------------- how an attempt can end

  /** os.replace is the moment the registry changes; the permission call after it can still raise. */
  datatype Write = Written | FailsBeforeReplace | FailsAfterReplace

  datatype Result =
    | Done
    | Unchanged
    | Refused(reason: Reason)
    | Unreadable
    | RolledBack
    | Unconfirmed

  /**
   * RolledBack is a failure whose vault writes were all undone; the registry write is never undone. Unconfirmed is the
   * failure of the undoing itself.
   */
  ghost predicate Ends(before: Stores, request: Request, now: string, write: Write, after: Stores, result: Result) {
    PlanEnds(Planned(before, request, now), before, write, after, result)
  }

  ghost predicate PlanEnds(plan: Plan, before: Stores, write: Write, after: Stores, result: Result) {
    match result
    case Done => plan.Move? && after == Stores(Apply(before.vault, plan.change), plan.registry)
    case Unchanged => plan.Nothing? && after == before
    case Refused(reason) => plan == Refuse(reason) && after == before
    case Unreadable => after == before
    case RolledBack =>
      && plan.Move? && after.vault == before.vault
      && (after.registry == before.registry || (write.FailsAfterReplace? && after.registry == plan.registry))
    case Unconfirmed =>
      && plan.Move?
      && (forall slot :: slot !in plan.change ==> Lookup(after.vault, slot) == Lookup(before.vault, slot))
      && (after.registry == before.registry || (write.FailsAfterReplace? && after.registry == plan.registry))
  }

  // ---------------------------------------------------------------- agreement

  lemma InApply(v: Vault, change: Change, slot: Slot)
    ensures Lookup(Apply(v, change), slot) == Held(v, change, slot)
  {
  }

  lemma BoundKeeps(r: Registry, rid: Identity, project: ProjectIdentity, now: string)
    requires RegistryOk(r) && rid in r.resources
    ensures RegistryOk(Bound(r, rid, project, now)) && Named(Bound(r, rid, project, now)) == Named(r)
  {
    var t := Bound(r, rid, project, now);
    forall p | p in t.bindings ensures t.bindings[p].resources.Keys <= t.resources.Keys {
      if p == project.key {
        assert p in r.bindings ==> r.bindings[p].resources.Keys <= r.resources.Keys;
      } else {
        assert r.bindings[p].resources.Keys <= r.resources.Keys;
      }
    }
  }

  lemma UpsertNames(r: Registry, identity: Identity, fields: set<Field>, now: string)
    requires RegistryOk(r) && fields != {}
    ensures RegistryOk(Upserted(r, identity, fields, now))
    ensures Named(Upserted(r, identity, fields, now)) == Named(r) + ResourceSlots(identity, fields)
  {
    var t := Upserted(r, identity, fields, now);
    forall p | p in t.bindings ensures t.bindings[p].resources.Keys <= t.resources.Keys {
      assert r.bindings[p].resources.Keys <= r.resources.Keys;
    }
    forall slot ensures slot in Named(t) <==> slot in Named(r) + ResourceSlots(identity, fields) {
      assert slot.Stored? && slot.rid in t.resources ==> (slot.field in t.resources[slot.rid].fields <==>
        (slot.rid in r.resources && slot.field in r.resources[slot.rid].fields) ||
          (slot.rid == identity && slot.field in fields));
    }
  }

  /** How a plan that is carried out changes what the registry names, in step with the vault. */
  predicate KeysFollow(s: Stores, plan: Plan) {
    plan.Move? ==>
      && RegistryOk(plan.registry)
      && Named(plan.registry) == Apply(s.vault, plan.change).Keys
      && (forall slot :: slot in plan.change && slot.Stored? && plan.change[slot].Some? ==>
          plan.change[slot].value != "")
  }

  predicate NamesStay(s: Stores, plan: Plan) {
    plan.Move? && Named(plan.registry) == Named(s.registry)
  }

  lemma SaveFollows(s: Stores, identity: Identity, values: seq<(Field, string)>, project: Option<ProjectIdentity>,
                    bind: bool, authorized: bool, now: string)
    requires Agree(s)
    ensures KeysFollow(s, PlanSave(s, identity, values, project, bind, authorized, now))
    ensures PlanSave(s, identity, values, project, bind, authorized, now).Move? ==>
              (NamesStay(s, PlanSave(s, identity, values, project, bind, authorized, now)) <==>
               identity in s.registry.resources && AsMap(values).Keys <= s.registry.resources[identity].fields)
  {
    var plan := PlanSave(s, identity, values, project, bind, authorized, now);
    if plan.Move? {
      AsMapHolds(values);
      var fields := AsMap(values).Keys;
      assert values[0].0 in fields;
      UpsertNames(s.registry, identity, fields, now);
      if bind {
        BoundKeeps(Upserted(s.registry, identity, fields, now), identity, project.value, now);
      }
      assert plan.change.Keys == ResourceSlots(identity, fields);
      assert Apply(s.vault, plan.change).Keys == s.vault.Keys + plan.change.Keys;
      SlotsNamed(s.registry, identity, fields);
    }
  }

  lemma SlotsNamed(r: Registry, identity: Identity, fields: set<Field>)
    requires fields != {}
    ensures Named(r) + ResourceSlots(identity, fields) == Named(r) <==>
              identity in r.resources && fields <= r.resources[identity].fields
  {
    if Named(r) + ResourceSlots(identity, fields) == Named(r) {
      forall f | f in fields ensures Stored(identity, f) in Named(r) {
        assert Stored(identity, f) in ResourceSlots(identity, fields);
      }
      var f :| f in fields;
      assert Stored(identity, f) in Named(r);
    } else {
      var slot :| slot in ResourceSlots(identity, fields) && slot !in Named(r);
    }
  }

  lemma DeleteFollows(s: Stores, rid: Identity, authorized: bool)
    requires Agree(s)
    ensures KeysFollow(s, PlanDelete(s.registry, rid, authorized))
    ensures !NamesStay(s, PlanDelete(s.registry, rid, authorized))
  {
    var plan := PlanDelete(s.registry, rid, authorized);
    if plan.Move? {
      WithoutNames(s.registry, rid);
      forall slot ensures slot in Named(s.registry) - ResourceSlots(rid, s.registry.resources[rid].fields) <==>
                          slot in Apply(s.vault, plan.change)
      {
        InApply(s.vault, plan.change, slot);
      }
    }
  }

  lemma WithoutNames(r: Registry, rid: Identity)
    requires RegistryOk(r) && rid in r.resources
    ensures RegistryOk(WithoutResource(r, rid))
    ensures Named(WithoutResource(r, rid)) == Named(r) - ResourceSlots(rid, r.resources[rid].fields)
    ensures Named(WithoutResource(r, rid)) != Named(r)
  {
    var t := WithoutResource(r, rid);
    forall p | p in t.bindings ensures t.bindings[p].resources.Keys <= t.resources.Keys {
      assert r.bindings[p].resources.Keys <= r.resources.Keys;
    }
    var f :| f in r.resources[rid].fields;
    assert Stored(rid, f) in Named(r) && Stored(rid, f) !in Named(t);
  }

  lemma BindFollows(s: Stores, rid: Identity, project: ProjectIdentity, authorized: bool, now: string)
    requires Agree(s)
    ensures KeysFollow(s, PlanBind(s.registry, rid, project, authorized, now))
    ensures PlanBind(s.registry, rid, project, authorized, now).Move? ==>
              NamesStay(s, PlanBind(s.registry, rid, project, authorized, now))
  {
    if PlanBind(s.registry, rid, project, authorized, now).Move? {
      BoundKeeps(s.registry, rid, project, now);
      assert Apply(s.vault, map[]) == s.vault;
    }
  }

  lemma UnlinkFollows(s: Stores, rid: Identity, project: Project, authorized: bool)
    requires Agree(s)
    ensures KeysFollow(s, PlanUnlink(s.registry, rid, project, authorized))
    ensures PlanUnlink(s.registry, rid, project, authorized).Move? ==>
              NamesStay(s, PlanUnlink(s.registry, rid, project, authorized))
  {
    var plan := PlanUnlink(s.registry, rid, project, authorized);
    if plan.Move? {
      assert Apply(s.vault, map[]) == s.vault;
      forall p | p in plan.registry.bindings
        ensures plan.registry.bindings[p].resources.Keys <= plan.registry.resources.Keys
      {
        assert s.registry.bindings[p].resources.Keys <= s.registry.resources.Keys;
      }
    }
  }

  lemma CaptureFollows(s: Stores, capture: CaptureId, allowed: bool, values: seq<(Field, string)>,
                       typeHint: Option<string>,
                       originHint: Option<string>, project: Option<ProjectIdentity>, now: string)
    requires Agree(s) && capture !in s.registry.captures
    ensures KeysFollow(s, PlanCapture(s.registry, capture, allowed, values, typeHint, originHint, project, now))
    ensures !NamesStay(s, PlanCapture(s.registry, capture, allowed, values, typeHint, originHint, project, now))
  {
    var plan := PlanCapture(s.registry, capture, allowed, values, typeHint, originHint, project, now);
    if plan.Move? {
      AsMapHolds(values);
      CaptureNames(s.registry, capture, plan.registry.captures[capture], values[0].0);
      CapturedKeys(s.vault, capture, AsMap(values));
    }
  }

  lemma CaptureNames(r: Registry, capture: CaptureId, row: Capture, f: Field)
    requires RegistryOk(r) && capture !in r.captures && f in row.fields
    ensures RegistryOk(r.(captures := r.captures[capture := row]))
    ensures Named(r.(captures := r.captures[capture := row])) == Named(r) + PendingSlots(capture, row.fields)
    ensures Named(r.(captures := r.captures[capture := row])) != Named(r)
  {
    assert Pending(capture, f) in PendingSlots(capture, row.fields) && Pending(capture, f) !in Named(r);
  }

  lemma CapturedKeys(v: Vault, capture: CaptureId, values: map<Field, string>)
    ensures Apply(v, CapturedSlots(capture, values)).Keys == v.Keys + PendingSlots(capture, values.Keys)
  {
  }

  lemma DiscardFollows(s: Stores, capture: CaptureId, authorized: bool)
    requires Agree(s)
    ensures KeysFollow(s, PlanDiscard(s.registry, capture, authorized))
    ensures !NamesStay(s, PlanDiscard(s.registry, capture, authorized))
  {
    var plan := PlanDiscard(s.registry, capture, authorized);
    if plan.Move? {
      DroppedNames(s.registry, capture);
      LosesCapture(s.registry, plan.registry, capture);
      forall slot ensures slot in Named(plan.registry) <==> slot in Apply(s.vault, plan.change) {
        InApply(s.vault, plan.change, slot);
      }
    }
  }

  lemma DroppedNames(r: Registry, capture: CaptureId)
    requires RegistryOk(r) && capture in r.captures
    ensures RegistryOk(r.(captures := r.captures - {capture}))
    ensures Named(r.(captures := r.captures - {capture})) ==
              Named(r) - PendingSlots(capture, r.captures[capture].fields)
  {
  }

  lemma LosesCapture(r: Registry, t: Registry, capture: CaptureId)
    requires RegistryOk(r) && capture in r.captures && capture !in t.captures
    ensures Named(t) != Named(r)
  {
    var f :| f in r.captures[capture].fields;
    assert Pending(capture, f) in Named(r) && Pending(capture, f) !in Named(t);
  }

  lemma MovedKeys(v: Vault, capture: CaptureId, identity: Identity, values: map<Field, string>)
    ensures Apply(v, Moved(capture, identity, values)).Keys ==
              v.Keys + ResourceSlots(identity, values.Keys) - PendingSlots(capture, values.Keys)
  {
    forall slot {
      InApply(v, Moved(capture, identity, values), slot);
    }
  }

  lemma ConfirmFollows(s: Stores, capture: CaptureId, identity: Identity, project: Option<ProjectIdentity>, bind: bool,
                       authorized: bool, now: string)
    requires Agree(s)
    ensures KeysFollow(s, PlanConfirm(s, capture, identity, project, bind, authorized, now))
    ensures !NamesStay(s, PlanConfirm(s, capture, identity, project, bind, authorized, now))
  {
    var plan := PlanConfirm(s, capture, identity, project, bind, authorized, now);
    if plan.Move? {
      ConfirmedNames(s.registry, capture, identity, project, bind, now);
      MovedKeys(s.vault, capture, identity,
                CapturedValues(s.vault, capture, s.registry.captures[capture].fields).value);
    }
  }

  lemma ConfirmedNames(r: Registry, capture: CaptureId, identity: Identity, project: Option<ProjectIdentity>,
                       bind: bool, now: string)
    requires RegistryOk(r) && capture in r.captures && (bind ==> project.Some?)
    ensures var fields := r.captures[capture].fields;
            var upserted := Upserted(r, identity, fields, now);
            var linked := if bind then Bound(upserted, identity, project.value, now) else upserted;
            var t := linked.(captures := linked.captures - {capture});
            && RegistryOk(t) && Named(t) != Named(r)
            && Named(t) == Named(r) + ResourceSlots(identity, fields) - PendingSlots(capture, fields)
  {
    var fields := r.captures[capture].fields;
    var upserted := Upserted(r, identity, fields, now);
    var linked := if bind then Bound(upserted, identity, project.value, now) else upserted;
    UpsertNames(r, identity, fields, now);
    if bind {
      BoundKeeps(upserted, identity, project.value, now);
    }
    DroppedNames(linked, capture);
    LosesCapture(r, linked.(captures := linked.captures - {capture}), capture);
  }

  /** A new capture gets an id no capture has: the uniqueness of uuid4. */
  predicate FreshCapture(s: Stores, request: Request) {
    request.CaptureDetection? ==> request.capture !in s.registry.captures
  }

  /** The request would not change which vault entries the registry names. A caller can see this beforehand. */
  predicate Harmless(s: Stores, request: Request) {
    match request
    case Save(identity, values, _, _, _) =>
      identity in s.registry.resources && AsMap(values).Keys <= s.registry.resources[identity].fields
    case Bind(_, _, _) => true
    case Unlink(_, _, _) => true
    case _ => false
  }

  lemma PlanFollows(s: Stores, request: Request, now: string)
    requires Agree(s) && FreshCapture(s, request)
    ensures KeysFollow(s, Planned(s, request, now))
    ensures Planned(s, request, now).Move? ==> (NamesStay(s, Planned(s, request, now)) <==> Harmless(s, request))
  {
    match request
    case Save(identity, values, project, bind, authorized) =>
      SaveFollows(s, identity, values, project, bind, authorized, now);
    case Bind(rid, project, authorized) => BindFollows(s, rid, project, authorized, now);
    case Unlink(rid, project, authorized) => UnlinkFollows(s, rid, project, authorized);
    case DeleteResource(rid, authorized) => DeleteFollows(s, rid, authorized);
    case CaptureDetection(capture, allowed, values, typeHint, originHint, project) =>
      CaptureFollows(s, capture, allowed, values, typeHint, originHint, project, now);
    case DiscardPending(capture, authorized) => DiscardFollows(s, capture, authorized);
    case ConfirmPending(capture, identity, project, bind, authorized) =>
      ConfirmFollows(s, capture, identity, project, bind, authorized, now);
  }

  /** A request that is carried out keeps vault and registry in exact agreement. */
  lemma DoneKeepsAgreement(before: Stores, request: Request, now: string, write: Write, after: Stores)
    requires Agree(before) && FreshCapture(before, request)
    requires Ends(before, request, now, write, after, Done)
    ensures Agree(after)
  {
    PlanFollows(before, request, now);
    var plan := Planned(before, request, now);
    forall slot | slot in after.vault && slot.Stored? ensures after.vault[slot] != "" {
      InApply(before.vault, plan.change, slot);
    }
  }

  // ---------------------------------------------------------------- a registry write that raises after the replacement

  /**
   * When the write raises after the new registry is in place, the vault is rolled back but the registry is not: the two
   * still agree exactly when the request was harmless.
   */
  lemma TornWriteAgreesExactlyWhen(before: Stores, request: Request, now: string)
    requires Agree(before) && FreshCapture(before, request) && Planned(before, request, now).Move?
    ensures Ends(before, request, now, FailsAfterReplace, Stores(before.vault, Planned(before, request, now).registry),
                 RolledBack)
    ensures Agree(Stores(before.vault, Planned(before, request, now).registry)) <==> Harmless(before, request)
  {
    PlanFollows(before, request, now);
  }

  const GIT := Identity("git", "https://example.org", "me")
  const WEB := Identity("web", "https://example.org", "me")

  function SaveToken(identity: Identity): Request { Save(identity, [("token", "secret")], None, false, false) }

  lemma TokenPlan(identity: Identity, now: string)
    ensures var plan := Planned(EMPTY, SaveToken(identity), now);
            && plan.Move? && plan.change == map[Stored(identity, "token") := Some("secret")]
            && Named(plan.registry) == {Stored(identity, "token")}
  {
    var values := [("token", "secret")];
    OneValue(values);
    EmptyAgrees();
    UpsertNames(EMPTY.registry, identity, {"token"}, now);
    var plan := PlanSave(EMPTY, identity, values, None, false, false, now);
    assert plan.Move?;
    TokenSlots(identity, AsMap(values));
    assert ResourceSlots(identity, {"token"}) == {Stored(identity, "token")};
    assert AsMap(values).Keys == {"token"};
  }

  lemma TokenSlots(identity: Identity, values: map<Field, string>)
    requires values == map["token" := "secret"]
    ensures StoredSlots(identity, values) == map[Stored(identity, "token") := Some("secret")]
  {
    var change := StoredSlots(identity, values);
    assert "token" in values;
    assert change.Keys == {Stored(identity, "token")};
  }

  lemma OneValue(values: seq<(Field, string)>)
    requires values == [("token", "secret")]
    ensures AsMap(values) == map["token" := "secret"] && Consistent(values) && AllBounded(values)
  {
    assert values[..0] == [] && AsMap([]) == map[];
    assert |"secret"| == 6;
  }

  lemma EmptyAgrees()
    ensures Agree(EMPTY)
  {
    assert EMPTY.vault.Keys == Named(EMPTY.registry);
  }

  /**
   * The first save of all, with a registry write that raises after the replacement: the registry names what is not
   * there.
   */
  lemma TornFirstSave(now: string)
    ensures var plan := Planned(EMPTY, SaveToken(GIT), now);
            && plan.Move?
            && Ends(EMPTY, SaveToken(GIT), now, FailsAfterReplace, Stores(EMPTY.vault, plan.registry), RolledBack)
            && !Agree(Stores(EMPTY.vault, plan.registry))
  {
    EmptyAgrees();
    TokenPlan(GIT, now);
    assert Stored(GIT, "token") in Named(Planned(EMPTY, SaveToken(GIT), now).registry);
  }

  // ---------------------------------------------------------------- two requests at a time

  /** A request that was planned on one state of the stores and carried out on a later one. */
  function CarriedOutLate(plan: Plan, now: Stores): Stores
    requires plan.Move?
  {
    Stores(Apply(now.vault, plan.change), plan.registry)
  }

  /**
   * Nothing locks the stores between reading the registry and writing it. A request that was planned before another one
   * was carried out restores agreement exactly when the other changed no names but those of entries it writes itself.
   */
  lemma LateRequestAgreesExactlyWhen(before: Stores, between: Stores, request: Request, now: string)
    requires Agree(before) && Agree(between) && FreshCapture(before, request) && Planned(before, request, now).Move?
    ensures var plan := Planned(before, request, now);
            Agree(CarriedOutLate(plan, between)) <==>
              forall slot :: slot !in plan.change ==>
                (slot in Named(before.registry) <==> slot in Named(between.registry))
  {
    PlanFollows(before, request, now);
    LatePlanAgreesExactlyWhen(before, between, Planned(before, request, now));
  }

  lemma LatePlanAgreesExactlyWhen(before: Stores, between: Stores, plan: Plan)
    requires Agree(before) && Agree(between) && plan.Move? && KeysFollow(before, plan)
    ensures Agree(CarriedOutLate(plan, between)) <==>
              forall slot :: slot !in plan.change ==>
                (slot in Named(before.registry) <==> slot in Named(between.registry))
  {
    var after := CarriedOutLate(plan, between);
    forall slot
      ensures slot in plan.change ==> (slot in after.vault <==> slot in Named(plan.registry))
      ensures slot !in plan.change ==> (slot in after.vault <==> slot in Named(between.registry))
      ensures slot !in plan.change ==> (slot in Named(plan.registry) <==> slot in Named(before.registry))
      ensures slot in after.vault && slot.Stored? ==> after.vault[slot] != ""
    {
      InApply(between.vault, plan.change, slot);
      InApply(before.vault, plan.change, slot);
    }
    assert Agree(after) <==> after.vault.Keys == Named(plan.registry);
    if after.vault.Keys != Named(plan.registry) {
      var slot :| (slot in after.vault) != (slot in Named(plan.registry));
    }
  }

  /**
   * Two first saves at once, both planned on empty stores: both end done, and one secret is in the vault without a
   * name.
   */
  lemma TwoSavesAtOnce(now: string)
    ensures var first, second := Planned(EMPTY, SaveToken(GIT), now), Planned(EMPTY, SaveToken(WEB), now);
            && first.Move? && second.Move?
            && Ends(EMPTY, SaveToken(GIT), now, Written, CarriedOutLate(first, EMPTY), Done)
            && !Agree(CarriedOutLate(second, CarriedOutLate(first, EMPTY)))
  {
    TokenPlan(GIT, now);
    TokenPlan(WEB, now);
    var first, second := Planned(EMPTY, SaveToken(GIT), now), Planned(EMPTY, SaveToken(WEB), now);
    var slot := Stored(GIT, "token");
    InApply(EMPTY.vault, first.change, slot);
    InApply(CarriedOutLate(first, EMPTY).vault, second.change, slot);
    assert GIT.service[0] != WEB.service[0];
    assert slot in CarriedOutLate(second, CarriedOutLate(first, EMPTY)).vault && slot !in Named(second.registry);
  }

  // ---------------------------------------------------------------- runs

  datatype Attempt = Attempt(request: Request, now: string, write: Write, result: Result)

  /** Any sequence of requests, one after the other, each ending in any way the two stores allow. */
  ghost predicate Run(states: seq<Stores>, attempts: seq<Attempt>) {
    && |states| == |attempts| + 1 && states[0] == EMPTY
    && (forall i :: 0 <= i < |attempts| ==> Attempted(states, attempts, i))
  }

  ghost predicate Attempted(states: seq<Stores>, attempts: seq<Attempt>, i: int) {
    0 <= i < |attempts| && i + 1 < |states| ==>
      && FreshCapture(states[i], attempts[i].request)
      && Ends(states[i], attempts[i].request, attempts[i].now, attempts[i].write, states[i + 1], attempts[i].result)
  }

  /** Every undoing succeeded, and no harmful request hit a registry write that raised after replacing the file. */
  ghost predicate Confirmed(states: seq<Stores>, attempts: seq<Attempt>, i: int) {
    0 <= i < |attempts| && i < |states| ==>
      && attempts[i].result != Unconfirmed
      && (attempts[i].write.FailsAfterReplace? ==> Harmless(states[i], attempts[i].request))
  }

  lemma StepAgrees(before: Stores, a: Attempt, after: Stores)
    requires Agree(before) && FreshCapture(before, a.request)
    requires Ends(before, a.request, a.now, a.write, after, a.result)
    requires a.result != Unconfirmed
    requires a.write.FailsAfterReplace? ==> Harmless(before, a.request)
    ensures Agree(after)
    ensures a.result != Done ==> after.vault == before.vault
    ensures a.result != Done && !a.write.FailsAfterReplace? ==> after == before
  {
    if a.result == Done {
      DoneKeepsAgreement(before, a.request, a.now, a.write, after);
    } else if after.registry != before.registry {
      TornWriteAgreesExactlyWhen(before, a.request, a.now);
    }
  }

  /**
   * Starting empty, after any sequence of requests with failures at any vault call or at the registry write, the vault
   * holds precisely the entries the registry names, and the next read accepts the registry.
   */
  lemma {:induction false} RunsAgree(states: seq<Stores>, attempts: seq<Attempt>, n: nat)
    requires Run(states, attempts) && n < |states|
    requires forall i :: 0 <= i < n ==> Confirmed(states, attempts, i)
    ensures Agree(states[n])
  {
    if n == 0 {
      EmptyAgrees();
    } else {
      RunsAgree(states, attempts, n - 1);
      assert Attempted(states, attempts, n - 1);
      assert Confirmed(states, attempts, n - 1);
      StepAgrees(states[n - 1], attempts[n - 1], states[n]);
    }
  }

  /** In such a run a failed request leaves the vault as it was, and the registry too unless the write was torn. */
  lemma FailuresLeaveNoTrace(states: seq<Stores>, attempts: seq<Attempt>, n: nat)
    requires Run(states, attempts) && n < |attempts| && attempts[n].result != Done
    requires forall i :: 0 <= i <= n ==> Confirmed(states, attempts, i)
    ensures states[n + 1].vault == states[n].vault
    ensures !attempts[n].write.FailsAfterReplace? ==> states[n + 1] == states[n]
  {
    RunsAgree(states, attempts, n);
    assert Attempted(states, attempts, n);
    assert Confirmed(states, attempts, n);
    StepAgrees(states[n], attempts[n], states[n + 1]);
  }

  // ---------------------------------------------------------------- whose secrets a request can touch

  /** However an attempt ends, even unconfirmed, it alters no vault entry of another resource or capture. */
  lemma OthersUntouched(before: Stores, request: Request, now: string, write: Write, after: Stores, result: Result,
                        slot: Slot)
    requires Ends(before, request, now, write, after, result)
    requires match slot
             case Stored(rid, _) =>
               && (request.Save? || request.ConfirmPending? ==> request.identity != rid)
               && (request.DeleteResource? ==> request.rid != rid)
             case Pending(capture, _) =>
               request.CaptureDetection? || request.DiscardPending? || request.ConfirmPending? ==>
                 request.capture != capture
    ensures Lookup(after.vault, slot) == Lookup(before.vault, slot)
  {
    var plan := Planned(before, request, now);
    if plan.Move? {
      assert slot !in plan.change;
      InApply(before.vault, plan.change, slot);
    }
  }

  /** A confirmation moves every captured value to the resource, unchanged, and leaves nothing of the capture behind. */
  lemma ConfirmMovesValues(before: Stores, request: Request, now: string, write: Write, after: Stores, field: Field)
    requires Agree(before) && request.ConfirmPending? && Ends(before, request, now, write, after, Done)
    ensures field in before.registry.captures[request.capture].fields ==>
              Lookup(after.vault, Stored(request.identity, field)) ==
                Lookup(before.vault, Pending(request.capture, field))
    ensures field !in before.registry.captures[request.capture].fields ==>
              Lookup(after.vault, Stored(request.identity, field)) ==
                Lookup(before.vault, Stored(request.identity, field))
    ensures Lookup(after.vault, Pending(request.capture, field)) == None
  {
    var fields := before.registry.captures[request.capture].fields;
    MovedHeld(before.vault, request.capture, request.identity,
              CapturedValues(before.vault, request.capture, fields).value, field);
    PendingIsNamed(before, request.capture, field);
  }

  lemma MovedHeld(v: Vault, capture: CaptureId, identity: Identity, values: map<Field, string>, field: Field)
    ensures Lookup(Apply(v, Moved(capture, identity, values)), Stored(identity, field)) ==
              if field in values then Some(values[field]) else Lookup(v, Stored(identity, field))
    ensures Lookup(Apply(v, Moved(capture, identity, values)), Pending(capture, field)) ==
              if field in values then None else Lookup(v, Pending(capture, field))
  {
    InApply(v, Moved(capture, identity, values), Stored(identity, field));
    InApply(v, Moved(capture, identity, values), Pending(capture, field));
  }

  lemma PendingIsNamed(s: Stores, capture: CaptureId, field: Field)
    requires Agree(s) && capture in s.registry.captures
    ensures Pending(capture, field) in s.vault <==> field in s.registry.captures[capture].fields
  {
    assert Pending(capture, field) in s.vault <==> Pending(capture, field) in Named(s.registry);
  }

  // ---------------------------------------------------------------- reading a bound secret

  datatype Read = Value(text: string) | NotRegisteredHere | NotBound | UnknownField | Unavailable

  /** _bound_fields for one field. */
  function FieldValue(s: Stores, rid: Identity, project: Project, field: Field): Read {
    if rid !in s.registry.resources then NotRegisteredHere
    else if project !in s.registry.bindings || rid !in s.registry.bindings[project].resources then NotBound
    else if field !in s.registry.resources[rid].fields then UnknownField
    else if Lookup(s.vault, Stored(rid, field)) in {None, Some("")} then Unavailable
    else Value(s.vault[Stored(rid, field)])
  }

  /** While the stores agree, every registered field of a bound resource can be read. */
  lemma BoundFieldsAreAvailable(s: Stores, rid: Identity, project: Project, field: Field)
    requires Agree(s)
    ensures FieldValue(s, rid, project, field) != Unavailable
    ensures FieldValue(s, rid, project, field).Value? <==>
              && project in s.registry.bindings && rid in s.registry.bindings[project].resources
              && field in s.registry.resources[rid].fields
  {
    if project in s.registry.bindings && rid in s.registry.bindings[project].resources {
      assert s.registry.bindings[project].resources.Keys <= s.registry.resources.Keys;
    }
    if rid in s.registry.resources && field in s.registry.resources[rid].fields {
      assert Stored(rid, field) in Named(s.registry);
    }
  }

  /** What was saved with a binding is what the project reads back. */
  lemma SavedIsReadBack(before: Stores, request: Request, now: string, write: Write, after: Stores, i: nat)
    requires Agree(before) && request.Save? && request.bind && i < |request.values|
    requires Ends(before, request, now, write, after, Done)
    ensures FieldValue(after, request.identity, request.project.value.key, request.values[i].0) ==
              Value(request.values[i].1)
  {
    DoneKeepsAgreement(before, request, now, write, after);
    AsMapHolds(request.values);
    var slot := Stored(request.identity, request.values[i].0);
    InApply(before.vault, Planned(before, request, now).change, slot);
    BoundFieldsAreAvailable(after, request.identity, request.project.value.key, request.values[i].0);
  }
}
