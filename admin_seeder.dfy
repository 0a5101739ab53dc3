/** Start-up seeding of the two built-in admin accounts: each is added only
    when no admin has its email yet. The password hash is a parameter. */
module AdminSeeder {
  import opened Wrappers
  import opened Entities
  import opened Data

  const DefaultAdminEmail: string := "admin@pustakalaya.com"
  const SuperAdminEmail: string := "superadmin@pustakalaya.com"
  const SeedPassword: string := "admin123"

  function DefaultAdmin(id: int, hashed: string, now: Ticks): Admin {
    Admin(id, "Default Admin", DefaultAdminEmail, hashed, "9800000000", "admin", None, now, now)
  }

  function SuperAdmin(id: int, hashed: string, now: Ticks): Admin {
    Admin(id, "Super Admin", SuperAdminEmail, hashed, "9800000001", "superadmin", None, now, now)
  }

  predicate HasEmail(admins: seq<Admin>, email: string) {
    AdminEmailIndex(admins, email).Some?
  }

  /** The admins table after a seeding run in which the records added get
      the keys `id1` and `id2`. Both lookups run against the table as it was
      before the run. */
  function Seeded(admins: seq<Admin>, id1: int, id2: int, hashed: string, now: Ticks): seq<Admin> {
    admins
      + (if HasEmail(admins, DefaultAdminEmail) then [] else [DefaultAdmin(id1, hashed, now)])
      + (if HasEmail(admins, SuperAdminEmail) then [] else [SuperAdmin(id2, hashed, now)])
  }

  /** After a run both built-in accounts exist with their roles; the admins
      there before are kept unchanged and first; at most two are added. */
  lemma SeededProperties(admins: seq<Admin>, id1: int, id2: int, hashed: string, now: Ticks)
    ensures var r := Seeded(admins, id1, id2, hashed, now);
      && (exists a :: a in r && a.email == DefaultAdminEmail && (a in admins || a.role == "admin"))
      && (exists a :: a in r && a.email == SuperAdminEmail && (a in admins || a.role == "superadmin"))
      && r[..|admins|] == admins
      && |admins| <= |r| <= |admins| + 2
  {
    var r := Seeded(admins, id1, id2, hashed, now);
    assert r[..|admins|] == admins;
    match AdminEmailIndex(admins, DefaultAdminEmail)
    case Some(k) => assert admins[k] in r;
    case None => assert DefaultAdmin(id1, hashed, now) in r;
    match AdminEmailIndex(admins, SuperAdminEmail)
    case Some(k) => assert admins[k] in r;
    case None => assert r[|r| - 1] == SuperAdmin(id2, hashed, now);
  }

  /** On an empty table a run adds exactly the two accounts, with the roles
      "admin" and "superadmin". */
  lemma SeedEmpty(id1: int, id2: int, hashed: string, now: Ticks)
    ensures Seeded([], id1, id2, hashed, now) == [DefaultAdmin(id1, hashed, now), SuperAdmin(id2, hashed, now)]
  {
  }

  /** Seeding is idempotent: a second run adds nothing. */
  lemma SeedIdempotent(admins: seq<Admin>, id1: int, id2: int, id3: int, id4: int, hashed: string, now: Ticks, later: Ticks)
    ensures var once := Seeded(admins, id1, id2, hashed, now);
      Seeded(once, id3, id4, hashed, later) == once
  {
    var once := Seeded(admins, id1, id2, hashed, now);
    assert HasEmail(once, DefaultAdminEmail) by {
      match AdminEmailIndex(admins, DefaultAdminEmail)
      case Some(k) => assert once[k] == admins[k];
      case None => assert once[|admins|] == DefaultAdmin(id1, hashed, now);
    }
    assert HasEmail(once, SuperAdminEmail) by {
      match AdminEmailIndex(admins, SuperAdminEmail)
      case Some(k) => assert once[k] == admins[k];
      case None => assert once[|once| - 1] == SuperAdmin(id2, hashed, now);
    }
    assert once + [] + [] == once;
  }

  /** A run keeps admin emails unique. */
  lemma SeedKeepsUnique(admins: seq<Admin>, id1: int, id2: int, hashed: string, now: Ticks)
    requires UniqueAdminEmails(admins)
    ensures UniqueAdminEmails(Seeded(admins, id1, id2, hashed, now))
  {
    var r := Seeded(admins, id1, id2, hashed, now);
    forall i, j | 0 <= i < j < |r| ensures r[i].email != r[j].email {
      if j >= |admins| {
        if i < |admins| {
          assert r[i] == admins[i];
        }
      } else {
        assert r[i] == admins[i] && r[j] == admins[j];
      }
    }
  }

  /** `SeedAdminAsync`: adds each built-in account whose email is not taken,
      keys drawn in order, and saves once. */
  method SeedAdmins(db: AppDbContext, hash: string -> string, now: Ticks)
    modifies db`admins, db`nextId
    ensures var added := |db.admins| - |old(db.admins)|;
      && 0 <= added <= 2
      && db.nextId == old(db.nextId) + added
      && db.admins == Seeded(old(db.admins), old(db.nextId),
           if HasEmail(old(db.admins), DefaultAdminEmail) then old(db.nextId) else old(db.nextId) + 1,
           hash(SeedPassword), now)
  {
    var before := db.admins;
    var pending: seq<Admin> := [];
    if !HasEmail(before, DefaultAdminEmail) {
      var id := db.NewId();
      pending := pending + [DefaultAdmin(id, hash(SeedPassword), now)];
    }
    if !HasEmail(before, SuperAdminEmail) {
      var id := db.NewId();
      pending := pending + [SuperAdmin(id, hash(SeedPassword), now)];
    }
    db.admins := db.admins + pending;
  }
}
