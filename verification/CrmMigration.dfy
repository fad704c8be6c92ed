/** Copying legacy companies and customers into the CRM tables, with an id map that makes it repeatable. */
module CrmMigration {
  import opened Common

  type Uuid = nat

  datatype Entity = Company | Person

  /** A legacy company or customer; `fields` are the columns that are copied. */
  datatype Legacy = Legacy(id: nat, tenant: nat, fields: string)

  /** A row of `crm_company` or `crm_person`. */
  datatype Crm = Crm(entity: Entity, tenant: nat, fields: string)

  /** The unique index of `crm_id_map`. */
  datatype MapKey = MapKey(tenant: nat, entity: Entity, legacy: nat)

  datatype Link = Link(customer: nat, company: nat)

  datatype Order = Order(tenant: nat, customer: Option<nat>, person: Option<Uuid>)

  /** Database-generated ids are fresh: `nextId` is the first not yet used. */
  datatype Db = Db(
    companies: seq<Legacy>, customers: seq<Legacy>, links: seq<Link>,
    crm: map<Uuid, Crm>, idMap: map<MapKey, Uuid>, crmLinks: set<(Uuid, Uuid)>, orders: map<nat, Order>, nextId: Uuid)

  function LegacyRows(db: Db, entity: Entity): seq<Legacy> {
    match entity
    case Company => db.companies
    case Person => db.customers
  }

  predicate InScope(tenant: Option<nat>, t: nat) {
    tenant.None? || t == tenant.value
  }

  /** `SELECT ... WHERE "tenantId" = $1 ORDER BY id`, the rows being kept in id order. */
  function Select(rows: seq<Legacy>, tenant: Option<nat>): (r: seq<Legacy>)
    ensures forall x :: x in r <==> x in rows && InScope(tenant, x.tenant)
  {
    if rows == [] then [] else
      assert rows == rows[..|rows| - 1] + [rows[|rows| - 1]];
      Select(rows[..|rows| - 1], tenant) + if InScope(tenant, rows[|rows| - 1].tenant) then [rows[|rows| - 1]] else []
  }

  // ------------------------------------------------------------ what the tables keep

  /** Legacy ids are primary keys. */
  ghost predicate DistinctIds(rows: seq<Legacy>) {
    forall i, j :: 0 <= i < j < |rows| ==> rows[i].id != rows[j].id
  }

  /** A legacy id is mapped in one tenant only, the one its row belongs to. */
  ghost predicate OneTenant(m: map<MapKey, Uuid>) {
    forall k, l :: k in m && l in m && k.entity == l.entity && k.legacy == l.legacy ==> k.tenant == l.tenant
  }

  ghost predicate Truthful(m: map<MapKey, Uuid>, entity: Entity, rows: seq<Legacy>) {
    forall k, i :: k in m && k.entity == entity && 0 <= i < |rows| && rows[i].id == k.legacy
      ==> k.tenant == rows[i].tenant
  }

  ghost predicate Valid(db: Db) {
    && DistinctIds(db.companies) && DistinctIds(db.customers)
    && OneTenant(db.idMap)
    && Truthful(db.idMap, Company, db.companies) && Truthful(db.idMap, Person, db.customers)
    && (forall u :: u in db.crm ==> u < db.nextId)
  }

  /** `getMappedLegacyIds`. */
  function Mapped(m: map<MapKey, Uuid>, entity: Entity, tenant: Option<nat>): (r: map<nat, Uuid>)
    requires OneTenant(m)
  {
    map k | k in m && k.entity == entity && InScope(tenant, k.tenant) :: k.legacy := m[k]
  }

  // ------------------------------------------------------------ the reference

  /** One row copied and mapped. */
  function Create(db: Db, entity: Entity, row: Legacy): Db {
    db.(crm := db.crm[db.nextId := Crm(entity, row.tenant, row.fields)],
        idMap := db.idMap[MapKey(row.tenant, entity, row.id) := db.nextId],
        nextId := db.nextId + 1)
  }

  /** `mapped.has(legacy)`: the legacy id has an entry of a tenant in scope. */
  predicate IsMapped(m: map<MapKey, Uuid>, entity: Entity, tenant: Option<nat>, legacy: nat) {
    exists k :: k in m && k.entity == entity && InScope(tenant, k.tenant) && k.legacy == legacy
  }

  /** The loop over the rows: a row is skipped iff its id has an entry in scope. */
  function Migrate(db: Db, entity: Entity, tenant: Option<nat>, rows: seq<Legacy>): Db {
    if rows == [] then db else
      var before := Migrate(db, entity, tenant, rows[..|rows| - 1]);
      var row := rows[|rows| - 1];
      if IsMapped(before.idMap, entity, tenant, row.id) then before else Create(before, entity, row)
  }

  /** How many of the rows have no entry in scope yet. */
  function Missing(m: map<MapKey, Uuid>, entity: Entity, tenant: Option<nat>, rows: seq<Legacy>): nat {
    if rows == [] then 0 else
      Missing(m, entity, tenant, rows[..|rows| - 1]) + if IsMapped(m, entity, tenant, rows[|rows| - 1].id) then 0 else 1
  }

  /** The pairs of CRM ids for the legacy links of customers in scope, where both ends are mapped. */
  function CarriedLinks(db: Db, tenant: Option<nat>, links: seq<Link>): set<(Uuid, Uuid)>
    requires OneTenant(db.idMap)
  {
    var persons, companies := Mapped(db.idMap, Person, tenant), Mapped(db.idMap, Company, tenant);
    set l | l in links && LinkInScope(db, tenant, l) && l.customer in persons && l.company in companies ::
      (persons[l.customer], companies[l.company])
  }

  /** What one legacy link contributes. */
  function Carried(db: Db, tenant: Option<nat>, l: Link): set<(Uuid, Uuid)>
    requires OneTenant(db.idMap)
  {
    var persons, companies := Mapped(db.idMap, Person, tenant), Mapped(db.idMap, Company, tenant);
    if LinkInScope(db, tenant, l) && l.customer in persons && l.company in companies
    then {(persons[l.customer], companies[l.company])} else {}
  }

  predicate LinkInScope(db: Db, tenant: Option<nat>, l: Link) {
    exists i :: 0 <= i < |db.customers| && db.customers[i].id == l.customer && InScope(tenant, db.customers[i].tenant)
  }

  /** The `UPDATE ... FROM crm_id_map`. */
  function Backfilled(db: Db, tenant: Option<nat>, o: Order): Order {
    if o.person.None? && o.customer.Some? && InScope(tenant, o.tenant)
      && MapKey(o.tenant, Person, o.customer.value) in db.idMap
    then o.(person := Some(db.idMap[MapKey(o.tenant, Person, o.customer.value)]))
    else o
  }

  function BackfillAll(db: Db, tenant: Option<nat>): Db {
    db.(orders := map i | i in db.orders :: Backfilled(db, tenant, db.orders[i]))
  }

  // ------------------------------------------------------------ migrating one table

  /** Only the CRM rows, the id map and the id counter change. */
  lemma {:induction false} MigrateFrame(db: Db, entity: Entity, tenant: Option<nat>, rows: seq<Legacy>)
    ensures var d := Migrate(db, entity, tenant, rows);
            d == db.(crm := d.crm, idMap := d.idMap, nextId := d.nextId)
  {
    if rows != [] { MigrateFrame(db, entity, tenant, rows[..|rows| - 1]); }
  }

  lemma SelectDistinct(rows: seq<Legacy>, tenant: Option<nat>)
    requires DistinctIds(rows)
    ensures DistinctIds(Select(rows, tenant))
  {
    if rows != [] {
      var front, x := rows[..|rows| - 1], rows[|rows| - 1];
      SelectDistinct(front, tenant);
      forall y | y in Select(front, tenant) ensures y.id != x.id {
        var i :| 0 <= i < |front| && front[i] == y;
        assert rows[i].id != rows[|rows| - 1].id;
      }
    }
  }

  ghost predicate TableInv(db: Db, entity: Entity) {
    && OneTenant(db.idMap) && Truthful(db.idMap, Company, db.companies) && Truthful(db.idMap, Person, db.customers)
    && (forall u :: u in db.crm ==> u < db.nextId)
  }

  lemma CreateKeeps(db: Db, entity: Entity, tenant: Option<nat>, row: Legacy)
    requires TableInv(db, entity) && row in LegacyRows(db, entity) && DistinctIds(LegacyRows(db, entity))
    requires !IsMapped(db.idMap, entity, tenant, row.id)
    ensures TableInv(Create(db, entity, row), entity)
  {
    var m := Create(db, entity, row).idMap;
    var i :| 0 <= i < |LegacyRows(db, entity)| && LegacyRows(db, entity)[i] == row;
    forall k | k in m && k.entity == entity && k.legacy == row.id ensures k.tenant == row.tenant {
    }
  }

  /** `d` is `db` with an entry for each of the rows, made only where there was none. */
  ghost predicate MapsRows(db: Db, d: Db, entity: Entity, rows: seq<Legacy>) {
    && (forall x :: x in rows ==> MapKey(x.tenant, entity, x.id) in d.idMap)
    && (forall k :: k in db.idMap ==> k in d.idMap && d.idMap[k] == db.idMap[k])
    && (forall k :: k in d.idMap && k !in db.idMap ==>
          && k.entity == entity && (exists x :: x in rows && x.id == k.legacy && x.tenant == k.tenant)
          && db.nextId <= d.idMap[k] && d.idMap[k] in d.crm)
    && db.nextId <= d.nextId
  }

  lemma MapsSkip(db: Db, d: Db, entity: Entity, rows: seq<Legacy>, row: Legacy)
    requires MapsRows(db, d, entity, rows) && MapKey(row.tenant, entity, row.id) in d.idMap
    ensures MapsRows(db, d, entity, rows + [row])
  {
  }

  lemma MapsCreate(db: Db, d: Db, entity: Entity, tenant: Option<nat>, rows: seq<Legacy>, row: Legacy)
    requires MapsRows(db, d, entity, rows) && !IsMapped(d.idMap, entity, tenant, row.id) && InScope(tenant, row.tenant)
    ensures MapsRows(db, Create(d, entity, row), entity, rows + [row])
  {
    var all := rows + [row];
    assert all[|rows|] == row;
    assert forall x :: x in rows ==> x in all;
    assert MapKey(row.tenant, entity, row.id) !in d.idMap;
  }

  /** A row's id is mapped after the rows before it exactly when it was mapped before. */
  lemma StillUnmapped(db: Db, d: Db, entity: Entity, tenant: Option<nat>, rows: seq<Legacy>, row: Legacy)
    requires MapsRows(db, d, entity, rows) && forall x :: x in rows ==> x.id != row.id
    ensures IsMapped(d.idMap, entity, tenant, row.id) <==> IsMapped(db.idMap, entity, tenant, row.id)
  {
  }

  /** The entry of a mapped row is under the row's own tenant. */
  lemma EntryIsOwn(m: map<MapKey, Uuid>, entity: Entity, tenant: Option<nat>, all: seq<Legacy>, row: Legacy)
    requires Truthful(m, entity, all) && row in all && IsMapped(m, entity, tenant, row.id)
    ensures MapKey(row.tenant, entity, row.id) in m
  {
    var k :| k in m && k.entity == entity && k.legacy == row.id;
    var i :| 0 <= i < |all| && all[i] == row;
    assert k == MapKey(row.tenant, entity, row.id);
  }

  /** Exactly the missing rows get an entry, and every row has one afterwards. */
  lemma {:induction false} MigrateMaps(db: Db, entity: Entity, tenant: Option<nat>, rows: seq<Legacy>)
    requires TableInv(db, entity) && DistinctIds(LegacyRows(db, entity)) && DistinctIds(rows)
    requires forall x :: x in rows ==> x in LegacyRows(db, entity) && InScope(tenant, x.tenant)
    ensures var d := Migrate(db, entity, tenant, rows);
            TableInv(d, entity) && MapsRows(db, d, entity, rows)
              && d.nextId == db.nextId + Missing(db.idMap, entity, tenant, rows)
  {
    hide MapsRows, OneTenant, Truthful, IsMapped, DistinctIds, Create;
    if rows == [] {
      assert MapsRows(db, db, entity, []) by { MapsNone(db, entity); }
    } else {
      var front, row := rows[..|rows| - 1], rows[|rows| - 1];
      assert rows == front + [row];
      var d := Migrate(db, entity, tenant, front);
      LastIsOther(rows);
      MigrateFrame(db, entity, tenant, front);
      MigrateMaps(db, entity, tenant, front);
      assert row in rows;
      StillUnmapped(db, d, entity, tenant, front, row);
      if IsMapped(d.idMap, entity, tenant, row.id) {
        EntryIsOwn(d.idMap, entity, tenant, LegacyRows(db, entity), row);
        MapsSkip(db, d, entity, front, row);
      } else {
        CreateKeeps(d, entity, tenant, row);
        CreateNumbers(d, entity, row);
        MapsCreate(db, d, entity, tenant, front, row);
      }
    }
  }

  lemma CreateNumbers(db: Db, entity: Entity, row: Legacy)
    ensures Create(db, entity, row).nextId == db.nextId + 1
  {
  }

  lemma LastIsOther(rows: seq<Legacy>)
    requires rows != [] && DistinctIds(rows)
    ensures DistinctIds(rows[..|rows| - 1])
    ensures forall x :: x in rows[..|rows| - 1] ==> x.id != rows[|rows| - 1].id
  {
    var front := rows[..|rows| - 1];
    forall x | x in front ensures x.id != rows[|rows| - 1].id {
      var i :| 0 <= i < |front| && front[i] == x;
      assert rows[i].id != rows[|rows| - 1].id;
    }
  }

  lemma MapsNone(db: Db, entity: Entity)
    ensures MapsRows(db, db, entity, [])
  {
  }

  lemma MigrateKeepsValid(db: Db, entity: Entity, tenant: Option<nat>)
    requires Valid(db)
    ensures Valid(Migrate(db, entity, tenant, Select(LegacyRows(db, entity), tenant)))
  {
    hide Migrate, Select, OneTenant, Truthful;
    var rows := Select(LegacyRows(db, entity), tenant);
    SelectDistinct(LegacyRows(db, entity), tenant);
    MigrateFrame(db, entity, tenant, rows);
    MigrateMaps(db, entity, tenant, rows);
  }

  // ------------------------------------------------------------ what is copied

  /** The entry of `k` is a CRM row made now, with the kind, the tenant and the columns of its legacy row. */
  ghost predicate Copy(was: Db, d: Db, k: MapKey) {
    && k in d.idMap && d.idMap[k] in d.crm && was.nextId <= d.idMap[k] < d.nextId
    && exists x :: && x in LegacyRows(was, k.entity) && x.id == k.legacy && x.tenant == k.tenant
                   && d.crm[d.idMap[k]] == Crm(k.entity, x.tenant, x.fields)
  }

  predicate NewEntry(was: Db, d: Db, k: MapKey) {
    k in d.idMap && k !in was.idMap
  }

  ghost predicate OldKept(was: Db, d: Db) {
    && (forall u :: u in was.crm ==> u in d.crm && d.crm[u] == was.crm[u])
    && (forall k :: k in was.idMap ==> k in d.idMap && d.idMap[k] == was.idMap[k])
  }

  ghost predicate OneToOne(was: Db, d: Db) {
    forall k, l :: NewEntry(was, d, k) && NewEntry(was, d, l) && d.idMap[k] == d.idMap[l] ==> k == l
  }

  ghost predicate NoOthers(was: Db, d: Db) {
    forall u :: u in d.crm && u !in was.crm ==> exists k :: NewEntry(was, d, k) && d.idMap[k] == u
  }

  ghost predicate AllCopies(was: Db, d: Db) {
    forall k :: NewEntry(was, d, k) ==> Copy(was, d, k)
  }

  /** New entries are copies, each its own CRM row; there are no other new CRM rows, and old ones are untouched. */
  ghost predicate Copies(was: Db, d: Db) {
    OldKept(was, d) && AllCopies(was, d) && OneToOne(was, d) && NoOthers(was, d)
  }

  ghost predicate IdsBelow(was: Db, d: Db) {
    was.nextId <= d.nextId && forall u :: u in d.crm ==> u < d.nextId
  }

  lemma CreateCopies(was: Db, d: Db, entity: Entity, row: Legacy)
    requires Copies(was, d) && IdsBelow(was, d)
    requires row in LegacyRows(was, entity) && MapKey(row.tenant, entity, row.id) !in d.idMap
    ensures Copies(was, Create(d, entity, row)) && IdsBelow(was, Create(d, entity, row))
  {
    hide OldKept, AllCopies, OneToOne, NoOthers, Copy;
    CreateKeepsOld(was, d, entity, row);
    CreateAllCopies(was, d, entity, row);
    CreateOneToOne(was, d, entity, row);
    CreateNoOthers(was, d, entity, row);
  }

  lemma CreateKeepsOld(was: Db, d: Db, entity: Entity, row: Legacy)
    requires OldKept(was, d) && IdsBelow(was, d) && MapKey(row.tenant, entity, row.id) !in d.idMap
    ensures OldKept(was, Create(d, entity, row))
  {
  }

  lemma CreateAllCopies(was: Db, d: Db, entity: Entity, row: Legacy)
    requires AllCopies(was, d) && IdsBelow(was, d)
    requires row in LegacyRows(was, entity) && MapKey(row.tenant, entity, row.id) !in d.idMap
    ensures AllCopies(was, Create(d, entity, row))
  {
    var d', key := Create(d, entity, row), MapKey(row.tenant, entity, row.id);
    forall k | NewEntry(was, d', k) ensures Copy(was, d', k) {
      if k != key {
        assert NewEntry(was, d, k);
        CopyStays(was, d, d', k);
      }
    }
  }

  lemma CopyStays(was: Db, d: Db, d': Db, k: MapKey)
    requires Copy(was, d, k) && k in d'.idMap && d'.idMap[k] == d.idMap[k] && d.nextId <= d'.nextId
    requires d.idMap[k] in d'.crm && d'.crm[d.idMap[k]] == d.crm[d.idMap[k]]
    ensures Copy(was, d', k)
  {
  }

  lemma CreateOneToOne(was: Db, d: Db, entity: Entity, row: Legacy)
    requires OneToOne(was, d) && AllCopies(was, d) && MapKey(row.tenant, entity, row.id) !in d.idMap
    ensures OneToOne(was, Create(d, entity, row))
  {
    var d', key := Create(d, entity, row), MapKey(row.tenant, entity, row.id);
    forall k | NewEntry(was, d', k) && k != key ensures NewEntry(was, d, k) && d'.idMap[k] < d.nextId {
      assert NewEntry(was, d, k);
    }
  }

  lemma CreateNoOthers(was: Db, d: Db, entity: Entity, row: Legacy)
    requires NoOthers(was, d) && OldKept(was, d) && MapKey(row.tenant, entity, row.id) !in d.idMap
    ensures NoOthers(was, Create(d, entity, row))
  {
    var d', key := Create(d, entity, row), MapKey(row.tenant, entity, row.id);
    assert NewEntry(was, d', key);
    forall u | u in d'.crm && u !in was.crm && u != d.nextId
      ensures exists k :: NewEntry(was, d', k) && d'.idMap[k] == u {
      var k :| NewEntry(was, d, k) && d.idMap[k] == u;
      assert NewEntry(was, d', k) && d'.idMap[k] == u;
    }
  }

  /** Migrating a table keeps what was copied before it, and copies the table's own missing rows. */
  lemma {:induction false} MigrateCopies(was: Db, db: Db, entity: Entity, tenant: Option<nat>, rows: seq<Legacy>)
    requires Copies(was, db) && IdsBelow(was, db)
    requires forall x :: x in rows ==> x in LegacyRows(was, entity) && InScope(tenant, x.tenant)
    ensures Copies(was, Migrate(db, entity, tenant, rows)) && IdsBelow(was, Migrate(db, entity, tenant, rows))
  {
    hide Copies, IdsBelow, Create;
    if rows != [] {
      var front, row := rows[..|rows| - 1], rows[|rows| - 1];
      assert forall x :: x in front ==> x in rows;
      assert row in rows;
      MigrateCopies(was, db, entity, tenant, front);
      var d := Migrate(db, entity, tenant, front);
      if !IsMapped(d.idMap, entity, tenant, row.id) {
        assert MapKey(row.tenant, entity, row.id) !in d.idMap;
        CreateCopies(was, d, entity, row);
      }
    }
  }

  lemma NothingCopied(db: Db)
    requires forall u :: u in db.crm ==> u < db.nextId
    ensures Copies(db, db) && IdsBelow(db, db)
  {
  }

  // ------------------------------------------------------------ the whole run

  /** The tables after companies and customers are migrated. */
  function Mapping(db: Db, tenant: Option<nat>): (d: Db)
    requires Valid(db)
    ensures Valid(d)
    ensures d == db.(crm := d.crm, idMap := d.idMap, nextId := d.nextId)
  {
    hide Migrate, Select, OneTenant, Truthful;
    var d1 := Migrate(db, Company, tenant, Select(db.companies, tenant));
    MigrateKeepsValid(db, Company, tenant);
    MigrateFrame(db, Company, tenant, Select(db.companies, tenant));
    MigrateKeepsValid(d1, Person, tenant);
    MigrateFrame(d1, Person, tenant, Select(db.customers, tenant));
    Migrate(d1, Person, tenant, Select(db.customers, tenant))
  }

  function RunAll(db: Db, tenant: Option<nat>): Db
    requires Valid(db)
  {
    var d := Mapping(db, tenant);
    BackfillAll(d.(crmLinks := d.crmLinks + CarriedLinks(d, tenant, d.links)), tenant)
  }

  /** Every row in scope has its entry, older entries stay, and new ones are of rows in scope. */
  lemma MappingMaps(db: Db, tenant: Option<nat>)
    requires Valid(db)
    ensures var d := Mapping(db, tenant);
            && (forall x :: x in db.companies && InScope(tenant, x.tenant)
                   ==> MapKey(x.tenant, Company, x.id) in d.idMap)
            && (forall x :: x in db.customers && InScope(tenant, x.tenant)
                   ==> MapKey(x.tenant, Person, x.id) in d.idMap)
            && (forall k :: k in db.idMap ==> k in d.idMap && d.idMap[k] == db.idMap[k])
            && d.nextId == db.nextId + Missing(db.idMap, Company, tenant, Select(db.companies, tenant))
                 + Missing(db.idMap, Person, tenant, Select(db.customers, tenant))
  {
    hide Migrate, OneTenant, Truthful, IsMapped, Missing;
    var cs, ps := Select(db.companies, tenant), Select(db.customers, tenant);
    SelectDistinct(db.companies, tenant);
    SelectDistinct(db.customers, tenant);
    var d1 := Migrate(db, Company, tenant, cs);
    MigrateMaps(db, Company, tenant, cs);
    MigrateFrame(db, Company, tenant, cs);
    MigrateKeepsValid(db, Company, tenant);
    MigrateMaps(d1, Person, tenant, ps);
    forall x | x in ps ensures IsMapped(d1.idMap, Person, tenant, x.id) <==> IsMapped(db.idMap, Person, tenant, x.id) {
      OtherEntity(db.idMap, d1.idMap, tenant, x.id);
    }
    MissingSame(db.idMap, d1.idMap, Person, tenant, ps);
  }

  lemma MappingCopies(db: Db, tenant: Option<nat>)
    requires Valid(db)
    ensures Copies(db, Mapping(db, tenant))
  {
    hide Migrate, Select, OneTenant, Truthful, DistinctIds, Copies, IdsBelow;
    NothingCopied(db);
    var d1 := Migrate(db, Company, tenant, Select(db.companies, tenant));
    MigrateCopies(db, db, Company, tenant, Select(db.companies, tenant));
    MigrateCopies(db, d1, Person, tenant, Select(db.customers, tenant));
    MigrateFrame(db, Company, tenant, Select(db.companies, tenant));
  }

  /**
   * A run copies legacy rows as they are: what is new in the id map and among the CRM rows are copies, one to
   * one, and each row in scope that had no entry in its tenant has one.
   */
  lemma RunCopies(db: Db, tenant: Option<nat>, entity: Entity, row: Legacy)
    requires Valid(db)
    ensures Copies(db, RunAll(db, tenant))
    ensures row in LegacyRows(db, entity) && InScope(tenant, row.tenant)
              && MapKey(row.tenant, entity, row.id) !in db.idMap ==>
              Copy(db, RunAll(db, tenant), MapKey(row.tenant, entity, row.id))
  {
    hide Mapping, Select, OneTenant, Truthful, CarriedLinks, Backfilled, DistinctIds, Copies, Copy, Missing, Valid;
    MappingCopies(db, tenant);
    SameCopies(db, Mapping(db, tenant), RunAll(db, tenant));
    MappingMaps(db, tenant);
    CopiesAre(db, RunAll(db, tenant), MapKey(row.tenant, entity, row.id));
  }

  lemma SameCopies(was: Db, a: Db, b: Db)
    requires Copies(was, a) && b == a.(crmLinks := b.crmLinks, orders := b.orders)
    ensures Copies(was, b)
  {
    hide Copy;
    forall k ensures NewEntry(was, a, k) <==> NewEntry(was, b, k) { }
    forall k | NewEntry(was, b, k) ensures Copy(was, b, k) { SameCopy(was, a, b, k); }
  }

  lemma SameCopy(was: Db, a: Db, b: Db, k: MapKey)
    requires Copy(was, a, k) && b == a.(crmLinks := b.crmLinks, orders := b.orders)
    ensures Copy(was, b, k)
  {
  }

  lemma CopiesAre(was: Db, d: Db, k: MapKey)
    requires Copies(was, d)
    ensures NewEntry(was, d, k) ==> Copy(was, d, k)
  {
    hide Copy;
  }

  lemma OtherEntity(m: map<MapKey, Uuid>, n: map<MapKey, Uuid>, tenant: Option<nat>, legacy: nat)
    requires forall k :: k in m ==> k in n
    requires forall k :: k in n && k !in m ==> k.entity == Company
    ensures IsMapped(n, Person, tenant, legacy) <==> IsMapped(m, Person, tenant, legacy)
  {
  }

  lemma {:induction false} MissingSame(m: map<MapKey, Uuid>, n: map<MapKey, Uuid>, entity: Entity,
        tenant: Option<nat>, rows: seq<Legacy>)
    requires forall x :: x in rows ==> (IsMapped(n, entity, tenant, x.id) <==> IsMapped(m, entity, tenant, x.id))
    ensures Missing(n, entity, tenant, rows) == Missing(m, entity, tenant, rows)
  {
    hide IsMapped;
    if rows != [] {
      var front := rows[..|rows| - 1];
      assert rows == front + [rows[|rows| - 1]];
      MissingSame(m, n, entity, tenant, front);
    }
  }

  /** Entries of a legacy id. */
  function Entries(m: map<MapKey, Uuid>, entity: Entity, legacy: nat): set<MapKey> {
    set k | k in m && k.entity == entity && k.legacy == legacy
  }

  /** After a full run every legacy company and customer has exactly one entry, in its own tenant. */
  lemma ExactlyOneEntry(db: Db, entity: Entity, row: Legacy)
    requires Valid(db) && row in LegacyRows(db, entity)
    ensures Entries(RunAll(db, None).idMap, entity, row.id) == {MapKey(row.tenant, entity, row.id)}
  {
    hide Mapping, CarriedLinks, Backfilled, Truthful, OneTenant, Entries;
    var d := Mapping(db, None);
    MappingMaps(db, None);
    EntriesOfRow(d.idMap, entity, LegacyRows(d, entity), row);
  }

  lemma EntriesOfRow(m: map<MapKey, Uuid>, entity: Entity, rows: seq<Legacy>, row: Legacy)
    requires Truthful(m, entity, rows) && row in rows && MapKey(row.tenant, entity, row.id) in m
    ensures Entries(m, entity, row.id) == {MapKey(row.tenant, entity, row.id)}
  {
    var i :| 0 <= i < |rows| && rows[i] == row;
    forall k | k in m && k.entity == entity && k.legacy == row.id ensures k == MapKey(row.tenant, entity, row.id) {
    }
  }

  /** A first run: before anything was migrated the tables are in order, and every run keeps them so. */
  lemma FirstRunIsValid(db: Db, tenant: Option<nat>)
    requires DistinctIds(db.companies) && DistinctIds(db.customers) && db.idMap == map[] && db.crm == map[]
    ensures Valid(db) && Valid(RunAll(db, tenant))
  {
    hide Mapping, CarriedLinks, Backfilled, BackfillAll;
    SecondRunChangesNothing(db, tenant);
  }

  lemma {:induction false} EntriesKept(db: Db, entity: Entity, tenant: Option<nat>, rows: seq<Legacy>, legacy: nat)
    requires forall x :: x in rows ==> x.id != legacy
    ensures Entries(Migrate(db, entity, tenant, rows).idMap, entity, legacy) == Entries(db.idMap, entity, legacy)
  {
    hide IsMapped, Entries, Create;
    if rows != [] {
      var front, last := rows[..|rows| - 1], rows[|rows| - 1];
      assert rows == front + [last];
      EntriesKept(db, entity, tenant, front, legacy);
      assert last in rows;
      OtherEntries(Migrate(db, entity, tenant, front), entity, last, legacy);
    }
  }

  /**
   * Whatever the id map holds, for a run over all tenants or one: the entries of a row's id are the old
   * ones, and its own as well iff none of the old ones was in scope.
   */
  lemma {:induction false} EntriesAfterMigrate(db: Db, entity: Entity, tenant: Option<nat>, rows: seq<Legacy>,
        row: Legacy)
    requires DistinctIds(rows) && row in rows
    ensures Entries(Migrate(db, entity, tenant, rows).idMap, entity, row.id) ==
            Entries(db.idMap, entity, row.id) + if IsMapped(db.idMap, entity, tenant, row.id) then {}
                                                else {MapKey(row.tenant, entity, row.id)}
  {
    hide IsMapped, Entries, Create, Migrate, DistinctIds;
    var front, last := rows[..|rows| - 1], rows[|rows| - 1];
    var before := Migrate(db, entity, tenant, front);
    LastDiffers(rows);
    assert rows == front + [last];
    MigrateLast(db, entity, tenant, rows);
    if row in front {
      EntriesAfterMigrate(db, entity, tenant, front, row);
      OtherEntries(before, entity, last, row.id);
    } else {
      EntriesKept(db, entity, tenant, front, row.id);
      MappedByEntries(db.idMap, before.idMap, entity, tenant, row.id);
      OwnEntry(before, entity, row);
    }
  }

  lemma LastDiffers(rows: seq<Legacy>)
    requires DistinctIds(rows) && rows != []
    ensures DistinctIds(rows[..|rows| - 1]) && forall x :: x in rows[..|rows| - 1] ==> x.id != rows[|rows| - 1].id
  {
    forall x | x in rows[..|rows| - 1] ensures x.id != rows[|rows| - 1].id {
      var i :| 0 <= i < |rows| - 1 && rows[i] == x;
    }
  }

  lemma MigrateLast(db: Db, entity: Entity, tenant: Option<nat>, rows: seq<Legacy>)
    requires rows != []
    ensures var d := Migrate(db, entity, tenant, rows[..|rows| - 1]);
            var last := rows[|rows| - 1];
            Migrate(db, entity, tenant, rows) == if IsMapped(d.idMap, entity, tenant, last.id) then d
                                                 else Create(d, entity, last)
  {
  }

  lemma OtherEntries(db: Db, entity: Entity, row: Legacy, legacy: nat)
    requires row.id != legacy
    ensures Entries(Create(db, entity, row).idMap, entity, legacy) == Entries(db.idMap, entity, legacy)
  {
  }

  lemma OwnEntry(db: Db, entity: Entity, row: Legacy)
    ensures Entries(Create(db, entity, row).idMap, entity, row.id) ==
            Entries(db.idMap, entity, row.id) + {MapKey(row.tenant, entity, row.id)}
  {
  }

  lemma MappedByEntries(m: map<MapKey, Uuid>, n: map<MapKey, Uuid>, entity: Entity, tenant: Option<nat>, legacy: nat)
    requires Entries(m, entity, legacy) == Entries(n, entity, legacy)
    ensures IsMapped(m, entity, tenant, legacy) <==> IsMapped(n, entity, tenant, legacy)
  {
    forall k
      ensures k in m && k.entity == entity && k.legacy == legacy
         <==> k in n && k.entity == entity && k.legacy == legacy {
      assert k in Entries(m, entity, legacy) <==> k in Entries(n, entity, legacy);
    }
  }

  /** After its table is migrated a row has exactly one entry iff it had one, in scope, or none at all. */
  lemma OneEntryIff(db: Db, entity: Entity, tenant: Option<nat>, rows: seq<Legacy>, row: Legacy)
    requires DistinctIds(rows) && row in rows && InScope(tenant, row.tenant)
    ensures |Entries(Migrate(db, entity, tenant, rows).idMap, entity, row.id)| == 1
       <==> |Entries(db.idMap, entity, row.id)| == if IsMapped(db.idMap, entity, tenant, row.id) then 1 else 0
  {
    hide Migrate, DistinctIds;
    EntriesAfterMigrate(db, entity, tenant, rows, row);
    if !IsMapped(db.idMap, entity, tenant, row.id) {
      assert MapKey(row.tenant, entity, row.id) !in Entries(db.idMap, entity, row.id);
    }
  }

  /** A run for one tenant does not see another's entry: the row ends with two. */
  lemma ForeignEntryDoubles(db: Db, entity: Entity, row: Legacy, other: nat, crmId: Uuid)
    requires other != row.tenant && db.idMap == map[MapKey(other, entity, row.id) := crmId]
    ensures Entries(Migrate(db, entity, Some(row.tenant), [row]).idMap, entity, row.id)
         == {MapKey(other, entity, row.id), MapKey(row.tenant, entity, row.id)}
  {
    hide Migrate;
    EntriesAfterMigrate(db, entity, Some(row.tenant), [row], row);
    assert Entries(db.idMap, entity, row.id) == {MapKey(other, entity, row.id)};
  }

  lemma MappedHas(m: map<MapKey, Uuid>, entity: Entity, tenant: Option<nat>, k: MapKey)
    requires OneTenant(m) && k in m && k.entity == entity && InScope(tenant, k.tenant)
    ensures k.legacy in Mapped(m, entity, tenant) && Mapped(m, entity, tenant)[k.legacy] == m[k]
  {
  }

  /** A legacy link whose customer is in scope and whose ends are mapped in scope has its CRM link. */
  lemma LinksCarried(db: Db, tenant: Option<nat>, l: Link, person: Legacy, company: Legacy)
    requires Valid(db) && l in db.links
    requires person in db.customers && person.id == l.customer && InScope(tenant, person.tenant)
    requires company in db.companies && company.id == l.company && InScope(tenant, company.tenant)
    ensures var after := RunAll(db, tenant);
            && MapKey(person.tenant, Person, l.customer) in after.idMap
            && MapKey(company.tenant, Company, l.company) in after.idMap
            && (after.idMap[MapKey(person.tenant, Person, l.customer)],
                after.idMap[MapKey(company.tenant, Company, l.company)]) in after.crmLinks
  {
    hide Mapping, Backfilled, Mapped, OneTenant, Truthful;
    var d := Mapping(db, tenant);
    MappingMaps(db, tenant);
    MappedHas(d.idMap, Person, tenant, MapKey(person.tenant, Person, l.customer));
    MappedHas(d.idMap, Company, tenant, MapKey(company.tenant, Company, l.company));
    var i :| 0 <= i < |d.customers| && d.customers[i] == person;
    assert LinkInScope(d, tenant, l);
  }

  /** The id map has `u` for this legacy id in a tenant in scope. */
  ghost predicate ImageOf(m: map<MapKey, Uuid>, tenant: Option<nat>, entity: Entity, legacy: nat, u: Uuid) {
    exists t :: InScope(tenant, t) && MapKey(t, entity, legacy) in m && m[MapKey(t, entity, legacy)] == u
  }

  /** The pair is what a legacy link of a customer in scope became. */
  ghost predicate LinkImage(db: Db, tenant: Option<nat>, l: Link, person: Uuid, company: Uuid) {
    && l in db.links
    && (exists p :: p in db.customers && p.id == l.customer && InScope(tenant, p.tenant))
    && ImageOf(db.idMap, tenant, Person, l.customer, person)
    && ImageOf(db.idMap, tenant, Company, l.company, company)
  }

  lemma MappedIff(m: map<MapKey, Uuid>, entity: Entity, tenant: Option<nat>, legacy: nat, u: Uuid)
    requires OneTenant(m)
    ensures legacy in Mapped(m, entity, tenant) && Mapped(m, entity, tenant)[legacy] == u
       <==> ImageOf(m, tenant, entity, legacy, u)
  {
    if ImageOf(m, tenant, entity, legacy, u) {
      var t :| InScope(tenant, t) && MapKey(t, entity, legacy) in m && m[MapKey(t, entity, legacy)] == u;
      MappedHas(m, entity, tenant, MapKey(t, entity, legacy));
    }
    if legacy in Mapped(m, entity, tenant) && Mapped(m, entity, tenant)[legacy] == u {
      var k :| k in m && k.entity == entity && InScope(tenant, k.tenant) && k.legacy == legacy && m[k] == u;
      assert k == MapKey(k.tenant, entity, legacy);
    }
  }

  lemma CarriedIff(d: Db, tenant: Option<nat>, person: Uuid, company: Uuid)
    requires OneTenant(d.idMap)
    ensures (person, company) in CarriedLinks(d, tenant, d.links)
       <==> exists l :: LinkImage(d, tenant, l, person, company)
  {
    hide Mapped, OneTenant, ImageOf, InScope;
    var persons, companies := Mapped(d.idMap, Person, tenant), Mapped(d.idMap, Company, tenant);
    if (person, company) in CarriedLinks(d, tenant, d.links) {
      var l :| l in d.links && LinkInScope(d, tenant, l) && l.customer in persons && l.company in companies
               && (persons[l.customer], companies[l.company]) == (person, company);
      MappedIff(d.idMap, Person, tenant, l.customer, person);
      MappedIff(d.idMap, Company, tenant, l.company, company);
      var i :| 0 <= i < |d.customers| && d.customers[i].id == l.customer && InScope(tenant, d.customers[i].tenant);
      assert d.customers[i] in d.customers;
      assert LinkImage(d, tenant, l, person, company);
    }
    if l :| LinkImage(d, tenant, l, person, company) {
      MappedIff(d.idMap, Person, tenant, l.customer, person);
      MappedIff(d.idMap, Company, tenant, l.company, company);
      var p :| p in d.customers && p.id == l.customer && InScope(tenant, p.tenant);
      var i :| 0 <= i < |d.customers| && d.customers[i] == p;
      assert LinkInScope(d, tenant, l);
    }
  }

  /** The person-company links after a run: the old ones and what legacy links became, nothing else. */
  lemma LinksExactly(db: Db, tenant: Option<nat>, person: Uuid, company: Uuid)
    requires Valid(db)
    ensures var after := RunAll(db, tenant);
            (person, company) in after.crmLinks <==>
              (person, company) in db.crmLinks || exists l :: LinkImage(after, tenant, l, person, company)
  {
    hide Mapping, CarriedLinks, OneTenant, Truthful, ImageOf, InScope, Backfilled;
    var d, after := Mapping(db, tenant), RunAll(db, tenant);
    CarriedIff(d, tenant, person, company);
    assert forall l :: LinkImage(after, tenant, l, person, company) <==> LinkImage(d, tenant, l, person, company);
  }

  /**
   * The backfill: an order in scope without a person, whose customer is mapped in its tenant, gets the person its
   * customer became; every other order stays as it was.
   */
  lemma OrdersLinked(db: Db, tenant: Option<nat>, i: nat)
    requires Valid(db) && i in db.orders
    ensures RunAll(db, tenant).orders.Keys == db.orders.Keys
    ensures var after, o := RunAll(db, tenant), db.orders[i];
            var due := && o.person.None? && o.customer.Some? && InScope(tenant, o.tenant)
                       && MapKey(o.tenant, Person, o.customer.value) in after.idMap;
            && (due ==> after.orders[i]
                        == Order(o.tenant, o.customer, Some(after.idMap[MapKey(o.tenant, Person, o.customer.value)])))
            && (!due ==> after.orders[i] == o)
  {
    hide Mapping, CarriedLinks, OneTenant, Truthful;
  }

  // ------------------------------------------------------------ running again

  lemma {:induction false} NothingMissing(db: Db, entity: Entity, tenant: Option<nat>, rows: seq<Legacy>)
    requires forall x :: x in rows ==> IsMapped(db.idMap, entity, tenant, x.id)
    ensures Migrate(db, entity, tenant, rows) == db
  {
    if rows != [] {
      assert rows == rows[..|rows| - 1] + [rows[|rows| - 1]];
      NothingMissing(db, entity, tenant, rows[..|rows| - 1]);
    }
  }

  lemma MappingAgain(db: Db, tenant: Option<nat>)
    requires Valid(db)
    requires forall x :: x in db.companies && InScope(tenant, x.tenant) ==> MapKey(x.tenant, Company, x.id) in db.idMap
    requires forall x :: x in db.customers && InScope(tenant, x.tenant) ==> MapKey(x.tenant, Person, x.id) in db.idMap
    ensures Mapping(db, tenant) == db
  {
    hide Migrate, OneTenant, Truthful;
    NothingMissing(db, Company, tenant, Select(db.companies, tenant));
    NothingMissing(db, Person, tenant, Select(db.customers, tenant));
  }

  /** A second run changes nothing at all, not even the id counter. */
  lemma SecondRunChangesNothing(db: Db, tenant: Option<nat>)
    requires Valid(db)
    ensures var once := RunAll(db, tenant); Valid(once) && RunAll(once, tenant) == once
  {
    hide Mapping, OneTenant, Truthful, Mapped, LinkInScope;
    var d := Mapping(db, tenant);
    var once := RunAll(db, tenant);
    MappingMaps(db, tenant);
    MappingAgain(once, tenant);
    assert CarriedLinks(once, tenant, once.links) == CarriedLinks(d, tenant, d.links) by {
      CarriedSame(d, once, tenant);
    }
    assert once.crmLinks + CarriedLinks(once, tenant, once.links) == once.crmLinks;
    forall i | i in once.orders ensures Backfilled(once, tenant, once.orders[i]) == once.orders[i] {
    }
    assert BackfillAll(once, tenant).orders == once.orders;
    assert once.(crmLinks := once.crmLinks) == once;
  }

  lemma CarriedSame(a: Db, b: Db, tenant: Option<nat>)
    requires OneTenant(a.idMap) && a.idMap == b.idMap && a.customers == b.customers && a.links == b.links
    ensures CarriedLinks(a, tenant, a.links) == CarriedLinks(b, tenant, b.links)
  {
    hide Mapped;
    assert forall l :: LinkInScope(a, tenant, l) <==> LinkInScope(b, tenant, l);
  }

  // ------------------------------------------------------------ the script

  /** The keys of the `Map` that `getMappedLegacyIds` returns. */
  function MappedIds(m: map<MapKey, Uuid>, entity: Entity, tenant: Option<nat>): set<nat> {
    set k | k in m && k.entity == entity && InScope(tenant, k.tenant) :: k.legacy
  }

  lemma IdsAreMapped(m: map<MapKey, Uuid>, entity: Entity, tenant: Option<nat>, legacy: nat)
    ensures legacy in MappedIds(m, entity, tenant) <==> IsMapped(m, entity, tenant, legacy)
  {
  }

  lemma IdsCreate(db: Db, entity: Entity, tenant: Option<nat>, row: Legacy)
    requires InScope(tenant, row.tenant)
    ensures MappedIds(Create(db, entity, row).idMap, entity, tenant) == MappedIds(db.idMap, entity, tenant) + {row.id}
  {
    var key := MapKey(row.tenant, entity, row.id);
    var m, n := db.idMap, Create(db, entity, row).idMap;
    forall x ensures x in MappedIds(n, entity, tenant) <==> x in MappedIds(m, entity, tenant) || x == row.id {
      if x in MappedIds(m, entity, tenant) {
        var k :| k in m && k.entity == entity && InScope(tenant, k.tenant) && k.legacy == x;
        assert k in n;
      }
      assert key in n && key.legacy == row.id;
    }
  }

  lemma MissingStep(m: map<MapKey, Uuid>, entity: Entity, tenant: Option<nat>, rows: seq<Legacy>, i: nat)
    requires i < |rows|
    ensures Missing(m, entity, tenant, rows[..i + 1])
         == Missing(m, entity, tenant, rows[..i]) + if IsMapped(m, entity, tenant, rows[i].id) then 0 else 1
  {
    assert rows[..i + 1][..i] == rows[..i];
  }

  lemma MigrateStep(db: Db, entity: Entity, tenant: Option<nat>, rows: seq<Legacy>, i: nat)
    requires i < |rows|
    ensures var d := Migrate(db, entity, tenant, rows[..i]);
            Migrate(db, entity, tenant, rows[..i + 1]) == if IsMapped(d.idMap, entity, tenant, rows[i].id) then d
                                                          else Create(d, entity, rows[i])
  {
    assert rows[..i + 1][..i] == rows[..i];
  }

  /** What the loop does to row `i`, dry or not: it is created iff it had no entry in scope at the start. */
  lemma RowStep(db: Db, entity: Entity, tenant: Option<nat>, rows: seq<Legacy>, i: nat)
    requires DistinctIds(rows) && i < |rows|
    ensures var row, d := rows[i], Migrate(db, entity, tenant, rows[..i]);
            var known := IsMapped(db.idMap, entity, tenant, row.id);
            && (IsMapped(d.idMap, entity, tenant, row.id) <==> known)
            && Migrate(db, entity, tenant, rows[..i + 1]) == (if known then d else Create(d, entity, row))
            && Missing(db.idMap, entity, tenant, rows[..i + 1])
            == Missing(db.idMap, entity, tenant, rows[..i]) + (if known then 0 else 1)
  {
    hide Migrate, Missing, IsMapped, Create, Entries;
    forall x | x in rows[..i] ensures x.id != rows[i].id {
      var j :| 0 <= j < i && rows[..i][j] == x;
      assert rows[j].id != rows[i].id;
    }
    EntriesKept(db, entity, tenant, rows[..i], rows[i].id);
    MappedByEntries(db.idMap, Migrate(db, entity, tenant, rows[..i]).idMap, entity, tenant, rows[i].id);
    MigrateStep(db, entity, tenant, rows, i);
    MissingStep(db.idMap, entity, tenant, rows, i);
  }

  class Migration {
    var db: Db

    constructor (initial: Db)
      ensures db == initial
    {
      db := initial;
    }

    /** `migrateCompanies`, and the first half of `migrateCustomers`; legacy ids are primary keys. */
    method MigrateTable(entity: Entity, dryRun: bool, tenant: Option<nat>) returns (created: nat, skipped: nat)
      requires DistinctIds(LegacyRows(db, entity))
      modifies this
      ensures db == if dryRun then old(db)
                    else Migrate(old(db), entity, tenant, Select(LegacyRows(old(db), entity), tenant))
      ensures created == Missing(old(db).idMap, entity, tenant, Select(LegacyRows(old(db), entity), tenant))
      ensures created + skipped == |Select(LegacyRows(old(db), entity), tenant)|
    {
      hide *;
      SelectDistinct(LegacyRows(db, entity), tenant);
      var mapped := MappedIds(db.idMap, entity, tenant);
      var rows := Select(LegacyRows(db, entity), tenant);
      created, skipped := 0, 0;
      var i := 0;
      PrefixNil(db, entity, tenant, rows);
      while i < |rows|
        invariant 0 <= i <= |rows|
        invariant db == if dryRun then old(db) else Migrate(old(db), entity, tenant, rows[..i])
        invariant mapped == MappedIds(db.idMap, entity, tenant)
        invariant created == Missing(old(db).idMap, entity, tenant, rows[..i])
        invariant created + skipped == i
      {
        var row := rows[i];
        assert row in rows;
        RowStep(old(db), entity, tenant, rows, i);
        IdsAreMapped(db.idMap, entity, tenant, row.id);
        if row.id in mapped {
          skipped := skipped + 1;
        } else if dryRun {
          created := created + 1;
        } else {
          IdsCreate(db, entity, tenant, row);
          mapped := mapped + {row.id};
          db := Create(db, entity, row);
          created := created + 1;
        }
        i := i + 1;
      }
      assert rows[..i] == rows;
    }

    /** The second half of `migrateCustomers`: the links, with both maps read after the rows were copied. */
    method MigrateLinks(dryRun: bool, tenant: Option<nat>)
      requires Valid(db)
      modifies this
      ensures db == if dryRun then old(db)
                    else old(db).(crmLinks := old(db).crmLinks + CarriedLinks(old(db), tenant, old(db).links))
    {
      hide Mapped, OneTenant, Truthful, LinkInScope, CarriedLinks, DistinctIds;
      var companyMap := Mapped(db.idMap, Company, tenant);
      var personMap := Mapped(db.idMap, Person, tenant);
      var i := 0;
      CarriedNil(db, tenant);
      while i < |db.links|
        invariant 0 <= i <= |old(db).links|
        invariant db == if dryRun then old(db)
                        else old(db).(crmLinks := old(db).crmLinks + CarriedLinks(old(db), tenant, old(db).links[..i]))
      {
        var link := db.links[i];
        CarriedStep(old(db), tenant, i);
        InScopeSame(old(db), db, tenant, link);
        if LinkInScope(db, tenant, link) && link.customer in personMap && link.company in companyMap && !dryRun {
          db := db.(crmLinks := db.crmLinks + {(personMap[link.customer], companyMap[link.company])});
        }
        i := i + 1;
      }
      assert old(db).links[..i] == old(db).links;
    }

    method BackfillOrderPersonIds(dryRun: bool, tenant: Option<nat>)
      modifies this
      ensures db == if dryRun then old(db) else BackfillAll(old(db), tenant)
    {
      if !dryRun {
        db := db.(orders := map i | i in db.orders :: Backfilled(db, tenant, db.orders[i]));
      }
    }

    /** The script: a dry run changes nothing and counts what a real one creates. */
    method Run(dryRun: bool, tenant: Option<nat>) returns (companies: nat, customers: nat)
      requires Valid(db)
      modifies this
      ensures db == if dryRun then old(db) else RunAll(old(db), tenant)
      ensures companies == Missing(old(db).idMap, Company, tenant, Select(old(db).companies, tenant))
      ensures customers == Missing(old(db).idMap, Person, tenant, Select(old(db).customers, tenant))
    {
      hide Migrate, Missing, Select, OneTenant, Truthful, CarriedLinks, BackfillAll, DistinctIds;
      MappingKeepsMissing(db, tenant);
      MigrateKeepsValid(db, Company, tenant);
      MigrateFrame(db, Company, tenant, Select(db.companies, tenant));
      var skipped;
      companies, skipped := MigrateTable(Company, dryRun, tenant);
      MigrateKeepsValid(db, Person, tenant);
      MigrateFrame(db, Person, tenant, Select(db.customers, tenant));
      customers, skipped := MigrateTable(Person, dryRun, tenant);
      MigrateLinks(dryRun, tenant);
      BackfillOrderPersonIds(dryRun, tenant);
    }
  }

  /** Migrating the companies leaves the customers' count as it was. */
  lemma MappingKeepsMissing(db: Db, tenant: Option<nat>)
    requires Valid(db)
    ensures var d1 := Migrate(db, Company, tenant, Select(db.companies, tenant));
            Missing(d1.idMap, Person, tenant, Select(db.customers, tenant))
              == Missing(db.idMap, Person, tenant, Select(db.customers, tenant))
  {
    hide Migrate, OneTenant, Truthful, IsMapped, Missing;
    var cs, ps := Select(db.companies, tenant), Select(db.customers, tenant);
    SelectDistinct(db.companies, tenant);
    var d1 := Migrate(db, Company, tenant, cs);
    MigrateMaps(db, Company, tenant, cs);
    forall x | x in ps ensures IsMapped(d1.idMap, Person, tenant, x.id) <==> IsMapped(db.idMap, Person, tenant, x.id) {
      OtherEntity(db.idMap, d1.idMap, tenant, x.id);
    }
    MissingSame(db.idMap, d1.idMap, Person, tenant, ps);
  }

  lemma CarriedNil(db: Db, tenant: Option<nat>)
    requires OneTenant(db.idMap)
    ensures db.crmLinks + CarriedLinks(db, tenant, db.links[..0]) == db.crmLinks
  {
  }

  lemma InScopeSame(a: Db, b: Db, tenant: Option<nat>, l: Link)
    requires a.customers == b.customers
    ensures LinkInScope(a, tenant, l) <==> LinkInScope(b, tenant, l)
  {
  }

  lemma CarriedStep(db: Db, tenant: Option<nat>, i: nat)
    requires OneTenant(db.idMap) && i < |db.links|
    ensures CarriedLinks(db, tenant, db.links[..i + 1])
         == CarriedLinks(db, tenant, db.links[..i]) + Carried(db, tenant, db.links[i])
  {
    hide Mapped, LinkInScope;
    assert db.links[..i + 1] == db.links[..i] + [db.links[i]];
    assert forall l :: l in db.links[..i + 1] <==> l in db.links[..i] || l == db.links[i];
  }

  lemma PrefixNil(db: Db, entity: Entity, tenant: Option<nat>, rows: seq<Legacy>)
    ensures Migrate(db, entity, tenant, rows[..0]) == db && Missing(db.idMap, entity, tenant, rows[..0]) == 0
  {
  }

}
