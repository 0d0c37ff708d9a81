/**
 * The one-time registry import: for each catalogue entry look for its slug, put its file in object storage,
 * insert the document with its first version in one transaction, and delete the file again when that fails.
 * Part one is any number of importers interleaving step by step, each able to fail or crash anywhere;
 * part two is one importer as the two loops it is, proved against a fold over the same items.
 */
module RegistryImport {
  import opened JsValues

  datatype Kind = Policy | External | File
  datatype Status = Draft | Published | Scheduled | Archived

  /** A registry entry or a launch-draft seed. */
  datatype Item =
    | Registry(slug: string, file: bool, externalUrl: bool, opseu: bool)
    | Seed(slug: string, hostWide: bool)

  datatype Doc = Doc(
    slug: string, status: Status, currentVersion: nat, publishedVersion: Option<nat>,
    brandPresetId: Option<string>, hostWidePolicy: bool, createdBy: string)

  datatype Version = Version(documentId: string, number: nat, kind: Kind, storageKey: Option<string>, createdBy: string)

  datatype Database = Database(docs: map<string, Doc>, versions: map<string, Version>)

  // ---- The rows an item becomes ----

  const POLICY_SLUGS: set<string> := {"privacy", "security", "accessibility"}

  function KindOf(item: Item): Kind {
    if item.Seed? || item.slug in POLICY_SLUGS then Policy
    else if item.externalUrl then External else File
  }

  function DocId(item: Item): string {
    (if item.Registry? then "pubdoc-baseline-" else "pubdoc-draft-") + item.slug
  }

  function VersionId(item: Item): string {
    DocId(item) + "-v1"
  }

  /** Baseline legal statements stay drafts; every other registry entry is published at once. */
  function StatusOf(item: Item): Status {
    if KindOf(item).Policy? then Draft else Published
  }

  function DocRow(item: Item): Doc {
    Doc(item.slug, StatusOf(item), 1,
        if StatusOf(item).Published? then Some(1) else None,
        if item.Registry? && item.opseu then Some("opseu") else None,
        if item.Registry? then KindOf(item).Policy? else item.hostWide,
        "registry-import")
  }

  function VersionRow(item: Item, key: Option<string>): Version {
    Version(DocId(item), 1, KindOf(item), key, "registry-import")
  }

  predicate NeedsBlob(item: Item) {
    item.Registry? && item.file
  }

  lemma IdsDiffer(a: Item, b: Item)
    ensures DocId(a) == DocId(b) ==> a.slug == b.slug && (a.Registry? <==> b.Registry?)
    ensures VersionId(a) == VersionId(b) ==> DocId(a) == DocId(b)
  {
    if DocId(a) == DocId(b) {
      assert DocId(a)[7] == if a.Registry? then 'b' else 'd';
      assert DocId(b)[7] == if b.Registry? then 'b' else 'd';
      var n := if a.Registry? then |"pubdoc-baseline-"| else |"pubdoc-draft-"|;
      assert DocId(a)[n..] == a.slug && DocId(b)[n..] == b.slug;
    }
    if VersionId(a) == VersionId(b) {
      assert VersionId(a)[..|VersionId(a)| - 3] == DocId(a) && VersionId(b)[..|VersionId(b)| - 3] == DocId(b);
    }
  }

  // ---- The database ----

  predicate HasSlug(db: Database, slug: string) {
    exists id :: id in db.docs && db.docs[id].slug == slug
  }

  predicate HasFirstVersion(db: Database, docId: string) {
    exists v :: v in db.versions && db.versions[v].documentId == docId && db.versions[v].number == 1
  }

  /** Primary keys and the unique (document, version) index, whatever the slug index says. */
  predicate Clashes(db: Database, item: Item) {
    DocId(item) in db.docs || VersionId(item) in db.versions || HasFirstVersion(db, DocId(item))
  }

  /** Both inserts of the transaction, or neither. The slug index may or may not have been created. */
  predicate CanInsert(db: Database, item: Item, slugIndex: bool) {
    !Clashes(db, item) && (slugIndex ==> !HasSlug(db, item.slug))
  }

  function Insert(db: Database, item: Item, key: Option<string>): Database {
    Database(db.docs[DocId(item) := DocRow(item)], db.versions[VersionId(item) := VersionRow(item, key)])
  }

  /** What the declared constraints guarantee of any database: references resolve, (document, version) is unique. */
  ghost predicate WellFormed(db: Database) {
    && (forall v :: v in db.versions ==> db.versions[v].documentId in db.docs)
    && (forall v, w :: v in db.versions && w in db.versions
          && db.versions[v].documentId == db.versions[w].documentId && db.versions[v].number == db.versions[w].number
          ==> v == w)
  }

  ghost predicate SlugsUnique(db: Database) {
    forall a, b :: a in db.docs && b in db.docs && db.docs[a].slug == db.docs[b].slug ==> a == b
  }

  predicate References(db: Database, v: string, key: string) {
    v in db.versions && db.versions[v].storageKey == Some(key)
  }

  // ---- Importers ----

  /** Between two awaits. `Committing` owns the blob it put; `Deleting` owns the blob it must take back. */
  datatype Phase =
    | Looking
    | Preparing
    | Committing(put: Option<string>)
    | Deleting(key: string)
    | Stopped

  datatype Importer = Importer(next: nat, phase: Phase)

  datatype World = World(
    db: Database,
    blobs: set<string>,
    importers: map<nat, Importer>,
    leaked: set<string>,          // blobs whose importer crashed, or whose delete failed
    unacked: set<string>,         // blobs whose version was committed without the importer learning of it
    deleted: set<string>)         // blobs that an importer took back

  datatype Event =
    | Start(who: nat)
    | Select(who: nat, ok: bool)
    | Prepare(who: nat, key: string, ok: bool)   // read, sanitise, validate, scan, and put under a fresh key
    | Commit(who: nat, ok: bool, landed: bool)   // a failure may hide that the transaction took effect
    | Delete(who: nat, ok: bool)
    | Crash(who: nat)

  datatype Job = Job(items: seq<Item>, slugIndex: bool)

  predicate Active(job: Job, w: World, who: nat) {
    who in w.importers && w.importers[who].next < |job.items| && !w.importers[who].phase.Stopped?
  }

  function Current(job: Job, w: World, who: nat): Item
    requires Active(job, w, who)
  {
    job.items[w.importers[who].next]
  }

  function HeldKey(i: Importer): Option<string> {
    match i.phase
    case Committing(put) => put
    case Deleting(key) => Some(key)
    case _ => None
  }

  /** The blob an importer has put and not yet committed, deleted or lost. */
  function Held(w: World, who: nat): Option<string> {
    if who in w.importers then HeldKey(w.importers[who]) else None
  }

  /** A random key: nothing is or was stored under it and no row uses it. */
  ghost predicate Fresh(w: World, key: string) {
    key !in w.blobs && key !in w.deleted && forall v :: !References(w.db, v, key)
  }

  ghost predicate Enabled(job: Job, w: World, e: Event) {
    match e
    case Start(who) => who !in w.importers
    case Select(who, _) => Active(job, w, who) && w.importers[who].phase.Looking?
    case Prepare(who, key, _) =>
      Active(job, w, who) && w.importers[who].phase.Preparing? && (NeedsBlob(Current(job, w, who)) ==> Fresh(w, key))
    case Commit(who, _, _) => Active(job, w, who) && w.importers[who].phase.Committing?
    case Delete(who, _) => Active(job, w, who) && w.importers[who].phase.Deleting?
    case Crash(who) => Active(job, w, who)
  }

  function At(w: World, who: nat, next: nat, phase: Phase): World {
    w.(importers := w.importers[who := Importer(next, phase)])
  }

  function Leak(w: World, key: Option<string>): World {
    if key.Some? then w.(leaked := w.leaked + {key.value}) else w
  }

  /** The transaction takes effect, whether or not the importer learns of it. */
  predicate Commits(job: Job, w: World, e: Event) {
    e.Commit? && (e.ok || e.landed) && Active(job, w, e.who) && w.importers[e.who].phase.Committing?
    && CanInsert(w.db, Current(job, w, e.who), job.slugIndex)
  }

  ghost function Step(job: Job, w: World, e: Event): World
  {
    if !Enabled(job, w, e) then w else
    match e
    case Start(who) => At(w, who, 0, Looking)
    case Select(who, ok) =>
      var n := w.importers[who].next;
      if !ok then At(w, who, n, Stopped)
      else if HasSlug(w.db, job.items[n].slug) then At(w, who, n + 1, Looking)
      else At(w, who, n, Preparing)
    case Prepare(who, key, ok) =>
      var n := w.importers[who].next;
      if !NeedsBlob(job.items[n]) then At(w, who, n, Committing(None))
      else if !ok then At(w, who, n, Stopped)
      else At(w, who, n, Committing(Some(key))).(blobs := w.blobs + {key})
    case Commit(who, ok, _) =>
      var n, key := w.importers[who].next, w.importers[who].phase.put;
      var w' := if Commits(job, w, e) then w.(db := Insert(w.db, job.items[n], key)) else w;
      if Commits(job, w, e) && ok then At(w', who, n + 1, Looking)
      else if key.Some? then
        At(w', who, n, Deleting(key.value)).(unacked := w.unacked + if Commits(job, w, e) then {key.value} else {})
      else At(w', who, n, Stopped)
    case Delete(who, ok) =>
      var n, key := w.importers[who].next, w.importers[who].phase.key;
      if ok then At(w, who, n, Stopped).(blobs := w.blobs - {key}, deleted := w.deleted + {key})
      else Leak(At(w, who, n, Stopped), Some(key))
    case Crash(who) =>
      Leak(At(w, who, w.importers[who].next, Stopped), HeldKey(w.importers[who]))
  }

  ghost function Run(job: Job, w: World, es: seq<Event>): World
    decreases es
  {
    if es == [] then w else Run(job, Step(job, w, es[0]), es[1..])
  }

  /** A run by the worlds it goes through. */
  lemma {:induction false} RunTrace(job: Job, es: seq<Event>, ws: seq<World>)
    requires |ws| == |es| + 1 && forall i :: 0 <= i < |es| ==> ws[i + 1] == Step(job, ws[i], es[i])
    ensures Run(job, ws[0], es) == ws[|es|]
    decreases es
  {
    if es != [] {
      assert ws[1] == Step(job, ws[0], es[0]);
      forall i | 0 <= i < |es| - 1 ensures ws[1..][i + 1] == Step(job, ws[1..][i], es[1..][i]) {
        assert ws[i + 2] == Step(job, ws[i + 1], es[i + 1]);
      }
      RunTrace(job, es[1..], ws[1..]);
    }
  }

  ghost predicate Initial(w: World) {
    w.importers == map[] && w.leaked == w.unacked == w.deleted == {} && WellFormed(w.db) && SlugsUnique(w.db)
  }

  // ---- Rows over every run ----

  /** The row was inserted for this item, with its first version and no other. */
  ghost predicate ImportedAs(db: Database, id: string, item: Item) {
    && id == DocId(item) && id in db.docs && db.docs[id] == DocRow(item)
    && VersionId(item) in db.versions
    && db.versions[VersionId(item)] == VersionRow(item, db.versions[VersionId(item)].storageKey)
    && (db.versions[VersionId(item)].storageKey.Some? <==> NeedsBlob(item))
    && forall v :: v in db.versions && db.versions[v].documentId == id ==> v == VersionId(item)
  }

  ghost predicate Imported(job: Job, db: Database, id: string) {
    exists i :: 0 <= i < |job.items| && ImportedAs(db, id, job.items[i])
  }

  /** `db0` is the database the run started from. */
  ghost predicate RowsSound(job: Job, db0: Database, db: Database) {
    && WellFormed(db)
    && SlugsUnique(db)
    && OldRowsKept(db0, db)
    && (forall id :: id in db.docs && id !in db0.docs ==> Imported(job, db, id))
  }

  /** Nothing that was there changed, and no document that was there got another version. */
  predicate OldRowsKept(db0: Database, db: Database) {
    && (forall id :: id in db0.docs ==> id in db.docs && db.docs[id] == db0.docs[id])
    && (forall v :: v in db0.versions ==> v in db.versions && db.versions[v] == db0.versions[v])
    && (forall v :: v in db.versions && v !in db0.versions ==> db.versions[v].documentId !in db0.docs)
  }

  /** No earlier item has this one's slug. */
  predicate FirstOfSlug(items: seq<Item>, i: nat)
    requires i < |items|
  {
    forall j :: 0 <= j < i ==> items[j].slug != items[i].slug
  }

  predicate Passed(job: Job, w: World, who: nat) {
    who in w.importers ==>
      forall j :: 0 <= j < w.importers[who].next && j < |job.items| ==> HasSlug(w.db, job.items[j].slug)
  }

  /** Past its select, an importer's item is the first with its slug, which is free or taken by that item's own row. */
  predicate Reserved(job: Job, w: World, who: nat) {
    Active(job, w, who) && !w.importers[who].phase.Looking? ==>
      && FirstOfSlug(job.items, w.importers[who].next)
      && (w.importers[who].phase.Committing? ==>
            (w.importers[who].phase.put.Some? <==> NeedsBlob(Current(job, w, who))))
      && forall id :: id in w.db.docs && w.db.docs[id].slug == Current(job, w, who).slug ==>
           id == DocId(Current(job, w, who))
  }

  ghost predicate SlugsReserved(job: Job, w: World) {
    forall who :: Passed(job, w, who) && Reserved(job, w, who)
  }

  lemma InsertKeepsConstraints(db: Database, item: Item, key: Option<string>)
    requires WellFormed(db) && SlugsUnique(db) && !Clashes(db, item) && !HasSlug(db, item.slug)
    ensures WellFormed(Insert(db, item, key)) && SlugsUnique(Insert(db, item, key))
  {
    assert !HasFirstVersion(db, DocId(item));
  }

  lemma InsertImports(db: Database, item: Item, key: Option<string>)
    requires WellFormed(db) && !Clashes(db, item) && (key.Some? <==> NeedsBlob(item))
    ensures ImportedAs(Insert(db, item, key), DocId(item), item)
  {
    forall v | v in db.versions ensures db.versions[v].documentId != DocId(item) {
      assert db.versions[v].documentId in db.docs;
    }
  }

  lemma InsertKeepsImported(db: Database, item: Item, key: Option<string>, id: string, other: Item)
    requires !Clashes(db, item) && ImportedAs(db, id, other)
    ensures ImportedAs(Insert(db, item, key), id, other)
  {
    IdsDiffer(other, item);
  }

  lemma InsertKeepsOld(db0: Database, db: Database, item: Item, key: Option<string>)
    requires OldRowsKept(db0, db) && !Clashes(db, item)
    ensures OldRowsKept(db0, Insert(db, item, key))
  {
  }

  lemma InsertKeepsRows(job: Job, db0: Database, db: Database, i: nat, key: Option<string>)
    requires RowsSound(job, db0, db)
    requires i < |job.items| && !Clashes(db, job.items[i]) && !HasSlug(db, job.items[i].slug)
    requires key.Some? <==> NeedsBlob(job.items[i])
    ensures RowsSound(job, db0, Insert(db, job.items[i], key))
  {
    var db' := Insert(db, job.items[i], key);
    InsertKeepsConstraints(db, job.items[i], key);
    forall id | id in db'.docs && id !in db0.docs
      ensures Imported(job, db', id)
    {
      if id == DocId(job.items[i]) {
        InsertImports(db, job.items[i], key);
        assert ImportedAs(db', id, job.items[i]);
      } else {
        var j :| 0 <= j < |job.items| && ImportedAs(db, id, job.items[j]);
        InsertKeepsImported(db, job.items[i], key, id, job.items[j]);
      }
    }
    InsertKeepsOld(db0, db, job.items[i], key);
  }

  lemma InsertEffect(db: Database, x: Item, key: Option<string>)
    requires !Clashes(db, x)
    ensures var db' := Insert(db, x, key);
      && (forall slug :: HasSlug(db', slug) <==> HasSlug(db, slug) || slug == x.slug)
      && (forall item: Item :: item.slug != x.slug ==> (Clashes(db', item) <==> Clashes(db, item)))
  {
    var db' := Insert(db, x, key);
    assert db'.docs[DocId(x)].slug == x.slug;
    forall slug ensures HasSlug(db', slug) <==> HasSlug(db, slug) || slug == x.slug {
      if HasSlug(db, slug) {
        var id :| id in db.docs && db.docs[id].slug == slug;
        assert id in db'.docs && db'.docs[id].slug == slug;
      }
    }
    forall item: Item | item.slug != x.slug ensures Clashes(db', item) <==> Clashes(db, item) {
      IdsDiffer(item, x);
      if HasFirstVersion(db, DocId(item)) {
        var v :| v in db.versions && db.versions[v].documentId == DocId(item) && db.versions[v].number == 1;
        assert v in db'.versions && db'.versions[v] == db.versions[v];
      }
    }
  }

  /** Only a commit that takes effect touches the database, and a step moves only its own importer. */
  lemma StepFrame(job: Job, w: World, e: Event)
    ensures var w' := Step(job, w, e);
      && w'.db == (if Commits(job, w, e) then Insert(w.db, Current(job, w, e.who), w.importers[e.who].phase.put)
                   else w.db)
      && (forall a :: a != e.who ==> (a in w'.importers <==> a in w.importers))
      && (forall a :: a != e.who && a in w.importers ==> w'.importers[a] == w.importers[a])
  {
  }

  lemma StepReserves(job: Job, w: World, e: Event)
    requires SlugsReserved(job, w)
    ensures SlugsReserved(job, Step(job, w, e))
  {
    var w' := Step(job, w, e);
    StepFrame(job, w, e);
    if Commits(job, w, e) {
      InsertEffect(w.db, Current(job, w, e.who), w.importers[e.who].phase.put);
      assert Reserved(job, w, e.who);
    }
    forall who
      ensures Passed(job, w', who) && Reserved(job, w', who)
    {
      assert Passed(job, w, who) && Reserved(job, w, who);
    }
  }

  lemma StepIgnoresIndex(job: Job, other: Job, w: World, e: Event)
    requires SlugsReserved(job, w) && other.items == job.items
    ensures Step(other, w, e) == Step(job, w, e) && SlugsReserved(other, w)
  {
    forall who ensures Passed(other, w, who) && Reserved(other, w, who) {
      assert Passed(job, w, who) && Reserved(job, w, who);
    }
    if e.Commit? && Active(job, w, e.who) && w.importers[e.who].phase.Committing? {
      assert Reserved(job, w, e.who);
      assert !Clashes(w.db, Current(job, w, e.who)) ==> !HasSlug(w.db, Current(job, w, e.who).slug);
      assert Commits(other, w, e) <==> Commits(job, w, e);
    }
  }

  lemma {:induction false} RunIgnoresIndex(job: Job, other: Job, w: World, es: seq<Event>)
    requires SlugsReserved(job, w) && other.items == job.items
    ensures Run(other, w, es) == Run(job, w, es)
    decreases es
  {
    if es != [] {
      StepIgnoresIndex(job, other, w, es[0]);
      StepReserves(job, w, es[0]);
      RunIgnoresIndex(job, other, Step(job, w, es[0]), es[1..]);
    }
  }

  /** The importers never rely on the unique slug index: whatever it would refuse, they have excluded already. */
  lemma SlugIndexIsRedundant(items: seq<Item>, w0: World, es: seq<Event>)
    requires Initial(w0)
    ensures Run(Job(items, true), w0, es) == Run(Job(items, false), w0, es)
  {
    RunIgnoresIndex(Job(items, false), Job(items, true), w0, es);
  }

  /** What the declared keys and indexes admit: no row with the same key, version, or, where indexed, slug. */
  lemma CanInsertExact(db: Database, item: Item, slugIndex: bool)
    ensures CanInsert(db, item, slugIndex) <==>
      && DocId(item) !in db.docs && VersionId(item) !in db.versions
      && (forall v :: v in db.versions ==> !(db.versions[v].documentId == DocId(item) && db.versions[v].number == 1))
      && (slugIndex ==> forall id :: id in db.docs ==> db.docs[id].slug != item.slug)
  {
  }

  lemma StepRows(job: Job, db0: Database, w: World, e: Event)
    requires RowsSound(job, db0, w.db) && SlugsReserved(job, w)
    ensures RowsSound(job, db0, Step(job, w, e).db) && SlugsReserved(job, Step(job, w, e))
  {
    StepFrame(job, w, e);
    StepReserves(job, w, e);
    if Commits(job, w, e) {
      assert Reserved(job, w, e.who);
      InsertKeepsRows(job, db0, w.db, w.importers[e.who].next, w.importers[e.who].phase.put);
    }
  }

  lemma {:induction false} RunRows(job: Job, db0: Database, w: World, es: seq<Event>)
    requires RowsSound(job, db0, w.db) && SlugsReserved(job, w)
    ensures RowsSound(job, db0, Run(job, w, es).db)
    decreases es
  {
    if es != [] {
      StepRows(job, db0, w, es[0]);
      RunRows(job, db0, Step(job, w, es[0]), es[1..]);
    }
  }

  /**
   * Any number of importers, interleaved and failing in any way, with or without the slug index and even if a slug
   * is listed twice: rows that were there stay as they were, each slug has at most one document, and every new
   * document is an item's row with exactly its version 1.
   */
  lemma ImportersKeepRows(job: Job, w0: World, es: seq<Event>)
    requires Initial(w0)
    ensures RowsSound(job, w0.db, Run(job, w0, es).db)
  {
    RunRows(job, w0.db, w0, es);
  }

  /**
   * What any run may leave in the catalogue: a new document is published, as version 1, exactly when its content is
   * no policy; a policy stays a draft, and nothing host-wide goes live.
   */
  lemma PoliciesStayDrafts(job: Job, w0: World, es: seq<Event>, id: string)
    requires Initial(w0) && id in Run(job, w0, es).db.docs && id !in w0.db.docs
    ensures var db := Run(job, w0, es).db;
      && db.docs[id].currentVersion == 1
      && (db.docs[id].hostWidePolicy ==> db.docs[id].status.Draft?)
      && exists v :: v in db.versions && db.versions[v].documentId == id && db.versions[v].number == 1
           && (if db.versions[v].kind.Policy? then db.docs[id].status.Draft? && db.docs[id].publishedVersion == None
               else db.docs[id].status.Published? && db.docs[id].publishedVersion == Some(1))
  {
    ImportersKeepRows(job, w0, es);
    var db := Run(job, w0, es).db;
    assert Imported(job, db, id);
    var i :| 0 <= i < |job.items| && ImportedAs(db, id, job.items[i]);
    assert VersionId(job.items[i]) in db.versions;
  }

  // ---- Which rows ----

  /** The rows of an item, in full. */
  ghost predicate IsRowOf(db: Database, id: string, item: Item) {
    && id in db.docs && id + "-v1" in db.versions
    && var doc, version := db.docs[id], db.versions[id + "-v1"];
       && doc.slug == item.slug && doc.currentVersion == 1 && doc.createdBy == "registry-import"
       && version.documentId == id && version.number == 1 && version.createdBy == "registry-import"
       && match item
          case Registry(slug, file, externalUrl, opseu) =>
            && id == "pubdoc-baseline-" + slug
            && doc.brandPresetId == (if opseu then Some("opseu") else None)
            && (version.storageKey.Some? <==> file)
            && if slug == "privacy" || slug == "security" || slug == "accessibility" then
                 && doc.status.Draft? && doc.publishedVersion == None && doc.hostWidePolicy
                 && version.kind.Policy?
               else
                 && doc.status.Published? && doc.publishedVersion == Some(1) && !doc.hostWidePolicy
                 && (if externalUrl then version.kind.External? else version.kind.File?)
          case Seed(slug, hostWide) =>
            && id == "pubdoc-draft-" + slug
            && doc.brandPresetId == None && doc.status.Draft? && doc.publishedVersion == None
            && doc.hostWidePolicy == hostWide && version.kind.Policy? && version.storageKey == None
  }

  lemma ImportedIsRow(db: Database, id: string, item: Item)
    requires ImportedAs(db, id, item)
    ensures IsRowOf(db, id, item)
  {
    assert VersionId(item) == id + "-v1";
    assert item.slug in POLICY_SLUGS <==>
      item.slug == "privacy" || item.slug == "security" || item.slug == "accessibility";
  }

  /**
   * Over every run, each new document has the rows of one of the items: the three legal statements are host-wide
   * policy drafts, seeds are policy drafts, and every other entry is published at once as a link or a file.
   */
  lemma NewRowsExact(job: Job, w0: World, es: seq<Event>, id: string)
    requires Initial(w0) && id in Run(job, w0, es).db.docs && id !in w0.db.docs
    ensures exists i :: 0 <= i < |job.items| && IsRowOf(Run(job, w0, es).db, id, job.items[i])
  {
    ImportersKeepRows(job, w0, es);
    var db := Run(job, w0, es).db;
    assert Imported(job, db, id);
    var i :| 0 <= i < |job.items| && ImportedAs(db, id, job.items[i]);
    ImportedIsRow(db, id, job.items[i]);
  }

  // ---- Blobs over every run ----

  ghost predicate Referenced(db: Database, key: string) {
    exists v :: References(db, v, key)
  }

  ghost predicate Owned(w: World, key: string) {
    exists who :: Held(w, who) == Some(key)
  }

  /** A blob the run itself stored. */
  predicate NewBlob(w0: World, w: World, key: string) {
    key in w.blobs && key !in w0.blobs
  }

  /** Stored by the run and not settled: it is referenced only if its commit was not acknowledged. */
  ghost predicate Unsettled(w0: World, w: World, key: string) {
    NewBlob(w0, w, key) && (Referenced(w.db, key) <==> key in w.unacked)
  }

  /** What the sets say of blobs that an importer holds, that were left behind, taken back, or not acknowledged. */
  ghost predicate PlacesSound(w0: World, w: World) {
    && (forall a :: Held(w, a).Some? ==> Unsettled(w0, w, Held(w, a).value) && Held(w, a).value !in w.leaked)
    && (forall a :: Held(w, a).Some? && w.importers[a].phase.Committing? ==> Held(w, a).value !in w.unacked)
    && (forall a, b :: Held(w, a).Some? && Held(w, a) == Held(w, b) ==> a == b)
    && (forall key :: key in w.leaked ==> Unsettled(w0, w, key))
    && (forall key :: key in w.deleted ==> key !in w.blobs)
    && (forall key :: key in w.unacked ==>
          Referenced(w.db, key) && (key in w.deleted || key in w.leaked || Owned(w, key)))
  }

  /** `w0` is the world the run started from. */
  ghost predicate BlobsSound(w0: World, w: World) {
    && w0.blobs <= w.blobs
    && (forall v :: v in w0.db.versions ==> v in w.db.versions && w.db.versions[v] == w0.db.versions[v])
    && (forall key :: NewBlob(w0, w, key) ==> key in w.leaked || Owned(w, key) || Referenced(w.db, key))
    && (forall v, key :: v !in w0.db.versions && References(w.db, v, key) ==>
          NewBlob(w0, w, key) || (key in w.unacked && key in w.deleted))
    && (forall v, u, key ::
          (NewBlob(w0, w, key) || key in w.unacked) && References(w.db, v, key) && References(w.db, u, key) ==>
            v == u && v !in w0.db.versions)
    && PlacesSound(w0, w)
  }

  ghost predicate OthersHold(w: World, w': World, who: nat) {
    forall a :: a != who ==>
      && Held(w', a) == Held(w, a)
      && (a in w'.importers <==> a in w.importers)
      && (a in w.importers ==> w'.importers[a] == w.importers[a])
  }

  /** Who owned a blob still does, unless it is the importer that moved. */
  lemma OthersOwn(w: World, w': World, who: nat, key: string)
    requires OthersHold(w, w', who) && Owned(w, key) && Held(w, who) != Some(key)
    ensures Owned(w', key)
  {
    var a :| Held(w, a) == Some(key);
    assert Held(w', a) == Some(key);
  }

  lemma PutKeepsBlobs(w0: World, w: World, w': World, who: nat, key: string)
    requires BlobsSound(w0, w) && Fresh(w, key) && Held(w, who).None?
    requires w' == w.(importers := w'.importers, blobs := w.blobs + {key})
    requires OthersHold(w, w', who) && Held(w', who) == Some(key)
    ensures BlobsSound(w0, w')
  {
    assert Owned(w', key);
    forall k | Owned(w, k) ensures Owned(w', k) {
      OthersOwn(w, w', who, k);
    }
    assert key !in w.unacked && key !in w.leaked;
    forall k | k in w.leaked || (exists a :: Held(w, a) == Some(k)) ensures Unsettled(w0, w', k) {
      assert Unsettled(w0, w, k);
    }
    assert Unsettled(w0, w', key);
  }

  /** Who is known to refer to a blob once the version is there. */
  lemma InsertReferences(db: Database, item: Item, held: Option<string>)
    requires !Clashes(db, item)
    ensures var db' := Insert(db, item, held);
      && (forall v, key ::
            References(db', v, key) <==> References(db, v, key) || (v == VersionId(item) && held == Some(key)))
      && (forall key :: Referenced(db', key) <==> Referenced(db, key) || held == Some(key))
  {
    var db' := Insert(db, item, held);
    forall key ensures Referenced(db', key) <==> Referenced(db, key) || held == Some(key) {
      if Referenced(db, key) {
        var v :| References(db, v, key);
        assert References(db', v, key);
      }
      assert held == Some(key) ==> References(db', VersionId(item), key);
      if Referenced(db', key) {
        var v :| References(db', v, key);
        assert References(db, v, key) || held == Some(key);
      }
    }
  }

  /** The version is there; the importer moved on, or holds on to a blob it will try to take back. */
  predicate CommittedBy(w: World, w': World, who: nat, item: Item) {
    && !Clashes(w.db, item) && who in w.importers && w.importers[who].phase.Committing?
    && w'.db == Insert(w.db, item, Held(w, who)) && w'.blobs == w.blobs && w'.leaked == w.leaked
    && w'.deleted == w.deleted
    && (|| (Held(w', who).None? && w'.unacked == w.unacked)
        || (Held(w, who).Some? && Held(w', who) == Held(w, who) && w'.importers[who].phase.Deleting?
            && w'.unacked == w.unacked + {Held(w, who).value}))
  }

  lemma CommitKeepsPlaces(w0: World, w: World, w': World, who: nat, item: Item)
    requires BlobsSound(w0, w) && CommittedBy(w, w', who, item) && OthersHold(w, w', who)
    ensures PlacesSound(w0, w')
  {
    InsertReferences(w.db, item, Held(w, who));
    forall k | Owned(w, k) && Held(w, who) != Some(k) ensures Owned(w', k) {
      OthersOwn(w, w', who, k);
    }
  }

  lemma CommitKeepsBlobs(w0: World, w: World, w': World, who: nat, item: Item)
    requires BlobsSound(w0, w) && CommittedBy(w, w', who, item) && OthersHold(w, w', who)
    ensures BlobsSound(w0, w')
  {
    InsertReferences(w.db, item, Held(w, who));
    CommitKeepsPlaces(w0, w, w', who, item);
    forall k | Owned(w, k) && Held(w, who) != Some(k) ensures Owned(w', k) {
      OthersOwn(w, w', who, k);
    }
  }

  /** Letting go of a blob: taken back, or left behind. */
  lemma ReleaseKeepsBlobs(w0: World, w: World, w': World, who: nat, key: string)
    requires BlobsSound(w0, w) && Held(w, who) == Some(key)
    requires w'.db == w.db && w'.unacked == w.unacked
    requires
      || (w'.blobs == w.blobs - {key} && w'.leaked == w.leaked && w'.deleted == w.deleted + {key})
      || (w'.blobs == w.blobs && w'.leaked == w.leaked + {key} && w'.deleted == w.deleted)
    requires OthersHold(w, w', who) && Held(w', who).None?
    ensures BlobsSound(w0, w')
  {
    forall k | Owned(w, k) && k != key ensures Owned(w', k) {
      OthersOwn(w, w', who, k);
    }
  }

  lemma SameKeepsBlobs(w0: World, w: World, w': World)
    requires BlobsSound(w0, w) && w' == w.(importers := w'.importers)
    requires forall a :: Held(w', a) == Held(w, a)
    requires forall a :: Held(w', a).Some? && w'.importers[a].phase.Committing? ==> w.importers[a].phase.Committing?
    ensures BlobsSound(w0, w')
  {
    forall k | Owned(w, k) ensures Owned(w', k) {
      var a :| Held(w, a) == Some(k);
      assert Held(w', a) == Some(k);
    }
  }

  lemma StepBlobs(job: Job, w0: World, w: World, e: Event)
    requires BlobsSound(w0, w)
    ensures BlobsSound(w0, Step(job, w, e))
  {
    var w' := Step(job, w, e);
    StepFrame(job, w, e);
    if Commits(job, w, e) {
      CommitKeepsBlobs(w0, w, w', e.who, Current(job, w, e.who));
    } else if Held(w', e.who) == Held(w, e.who) {
      SameKeepsBlobs(w0, w, w');
    } else if Held(w', e.who).Some? {
      PutKeepsBlobs(w0, w, w', e.who, Held(w', e.who).value);
    } else {
      ReleaseKeepsBlobs(w0, w, w', e.who, Held(w, e.who).value);
    }
  }

  lemma {:induction false} RunBlobs(job: Job, w0: World, w: World, es: seq<Event>)
    requires BlobsSound(w0, w)
    ensures BlobsSound(w0, Run(job, w, es))
    decreases es
  {
    if es != [] {
      StepBlobs(job, w0, w, es[0]);
      RunBlobs(job, w0, Step(job, w, es[0]), es[1..]);
    }
  }

  /** Exactly one version, and a new one, refers to the blob. */
  ghost predicate ReferencedOnce(w0: World, w: World, key: string) {
    exists v :: v !in w0.db.versions && References(w.db, v, key) && forall u :: References(w.db, u, key) ==> u == v
  }

  ghost predicate OwnedOnce(w: World, key: string) {
    exists a :: Held(w, a) == Some(key) && forall b :: Held(w, b) == Some(key) ==> b == a
  }

  /**
   * Conservation, over every run of any importers: nothing that was stored before is deleted; every blob the run
   * stored is in exactly one of three places (settled in one new version, held by one importer, or left behind by a
   * crash or a failed delete), and outside the first it is referenced exactly when its commit was not acknowledged;
   * and a new version's blob is missing exactly when that happened and the importer then took the blob back.
   */
  lemma BlobsConserved(job: Job, w0: World, es: seq<Event>)
    requires Initial(w0)
    ensures var w := Run(job, w0, es);
      && w0.blobs <= w.blobs
      && (forall key :: NewBlob(w0, w, key) ==>
            || (ReferencedOnce(w0, w, key) && !Owned(w, key) && key !in w.leaked && key !in w.unacked)
            || (OwnedOnce(w, key) && key !in w.leaked && (Referenced(w.db, key) <==> key in w.unacked))
            || (key in w.leaked && !Owned(w, key) && (Referenced(w.db, key) <==> key in w.unacked)))
      && (forall v, key :: v !in w0.db.versions && References(w.db, v, key) ==>
            && ReferencedOnce(w0, w, key) && key !in w0.blobs
            && (key !in w.blobs <==> key in w.unacked && key in w.deleted))
  {
    RunBlobs(job, w0, w0, es);
    var w := Run(job, w0, es);
    forall key | NewBlob(w0, w, key)
      ensures
        || (ReferencedOnce(w0, w, key) && !Owned(w, key) && key !in w.leaked && key !in w.unacked)
        || (OwnedOnce(w, key) && key !in w.leaked && (Referenced(w.db, key) <==> key in w.unacked))
        || (key in w.leaked && !Owned(w, key) && (Referenced(w.db, key) <==> key in w.unacked))
    {
      BlobIsSomewhere(w0, w, key);
    }
    forall v, key | v !in w0.db.versions && References(w.db, v, key)
      ensures ReferencedOnce(w0, w, key) && key !in w0.blobs
      ensures key !in w.blobs <==> key in w.unacked && key in w.deleted
    {
    }
  }

  lemma BlobIsSomewhere(w0: World, w: World, key: string)
    requires BlobsSound(w0, w) && NewBlob(w0, w, key)
    ensures
      || (ReferencedOnce(w0, w, key) && !Owned(w, key) && key !in w.leaked && key !in w.unacked)
      || (OwnedOnce(w, key) && key !in w.leaked && (Referenced(w.db, key) <==> key in w.unacked))
      || (key in w.leaked && !Owned(w, key) && (Referenced(w.db, key) <==> key in w.unacked))
  {
    if Owned(w, key) {
      var a :| Held(w, a) == Some(key);
      assert Unsettled(w0, w, key);
    } else if key in w.leaked {
      assert Unsettled(w0, w, key);
    } else {
      var v :| References(w.db, v, key);
    }
  }

  predicate AllStopped(job: Job, w: World) {
    forall who :: who in w.importers ==>
      w.importers[who].phase.Stopped? || (w.importers[who].phase.Looking? && w.importers[who].next >= |job.items|)
  }

  predicate LostAck(e: Event) {
    e.Commit? && !e.ok && e.landed
  }

  lemma {:induction false} NothingUnacked(job: Job, w: World, es: seq<Event>)
    requires forall e :: e in es ==> !LostAck(e)
    ensures Run(job, w, es).unacked == w.unacked
    decreases es
  {
    if es != [] {
      assert !LostAck(es[0]);
      NothingUnacked(job, Step(job, w, es[0]), es[1..]);
    }
  }

  /** As long as every commit that takes effect is acknowledged, every new version's blob is stored. */
  lemma AcknowledgedVersionsKeepBlobs(job: Job, w0: World, es: seq<Event>)
    requires Initial(w0) && forall e :: e in es ==> !LostAck(e)
    ensures var w := Run(job, w0, es);
      forall v, key :: v !in w0.db.versions && References(w.db, v, key) ==> NewBlob(w0, w, key)
  {
    NothingUnacked(job, w0, es);
    BlobsConserved(job, w0, es);
  }

  /**
   * The failing run, for any job that begins with a new file: the acknowledgement of the commit is lost, the importer
   * takes the blob back, and the committed version refers to nothing.
   */
  lemma LostAckLosesBlob(job: Job, w0: World, key: string)
    requires Initial(w0) && Fresh(w0, key) && job.items != [] && NeedsBlob(job.items[0])
    requires CanInsert(w0.db, job.items[0], job.slugIndex) && !HasSlug(w0.db, job.items[0].slug)
    ensures var es := [Start(0), Select(0, true), Prepare(0, key, true), Commit(0, false, true), Delete(0, true)];
      var w := Run(job, w0, es);
      References(w.db, VersionId(job.items[0]), key) && key !in w.blobs && AllStopped(job, w)
  {
    var es := [Start(0), Select(0, true), Prepare(0, key, true), Commit(0, false, true), Delete(0, true)];
    var w1 := Step(job, w0, es[0]);
    var w2 := Step(job, w1, es[1]);
    assert w2 == At(w1, 0, 0, Preparing);
    var w3 := Step(job, w2, es[2]);
    var w4 := Step(job, w3, es[3]);
    var w5 := Step(job, w4, es[4]);
    CommitThenDelete(job, w3, 0, CommitFails(true, false));
    RunTrace(job, es, [w0, w1, w2, w3, w4, w5]);
    assert w5.importers == map[0 := Importer(0, Stopped)];
  }

  predicate Harmless(e: Event) {
    !e.Crash? && !(e.Delete? && !e.ok)
  }

  lemma {:induction false} NoLeakWithoutCrash(job: Job, w: World, es: seq<Event>)
    requires forall e :: e in es ==> Harmless(e)
    ensures Run(job, w, es).leaked == w.leaked
    decreases es
  {
    if es != [] {
      assert Harmless(es[0]);
      NoLeakWithoutCrash(job, Step(job, w, es[0]), es[1..]);
    }
  }

  /** Without crashes or failed deletes, no orphan remains once every importer has finished or failed. */
  lemma NoOrphans(job: Job, w0: World, es: seq<Event>)
    requires Initial(w0) && (forall e :: e in es ==> Harmless(e)) && AllStopped(job, Run(job, w0, es))
    ensures var w := Run(job, w0, es); forall key :: NewBlob(w0, w, key) ==> ReferencedOnce(w0, w, key)
  {
    BlobsConserved(job, w0, es);
    NoLeakWithoutCrash(job, w0, es);
  }

  // ---- One importer: the two loops ----

  /** What goes wrong at an item. A commit that fails may have landed, and its blob may not be taken back either. */
  datatype Fault = NoFault | SelectFails | PrepareFails | CommitFails(landed: bool, deleteFails: bool)

  predicate Lands(fault: Fault) {
    fault.CommitFails? && fault.landed
  }

  predicate DeleteFails(fault: Fault) {
    fault.CommitFails? && fault.deleteFails
  }

  datatype Disk = Disk(db: Database, blobs: set<string>)
  datatype Tally = Tally(disk: Disk, imported: nat, skipped: nat, drafts: nat, threw: bool)

  function ImportItem(t: Tally, item: Item, slugIndex: bool, fault: Fault, key: string): Tally {
    var db := t.disk.db;
    if fault.SelectFails? then t.(threw := true)
    else if HasSlug(db, item.slug) then (if item.Registry? then t.(skipped := t.skipped + 1) else t)
    else if NeedsBlob(item) && fault.PrepareFails? then t.(threw := true)
    else
      var put := if NeedsBlob(item) then Some(key) else None;
      var blobs := if NeedsBlob(item) then t.disk.blobs + {key} else t.disk.blobs;
      if !fault.CommitFails? && CanInsert(db, item, slugIndex) then
        var done := t.(disk := Disk(Insert(db, item, put), blobs));
        if item.Registry? then done.(imported := t.imported + 1) else done.(drafts := t.drafts + 1)
      else
        var landed := Lands(fault) && CanInsert(db, item, slugIndex);
        t.(threw := true, disk := Disk(
          if landed then Insert(db, item, put) else db,
          if NeedsBlob(item) && !DeleteFails(fault) then blobs - {key} else blobs))
  }

  /** After the first `n` items; the first throw ends it. */
  function After(start: Disk, job: Job, faults: seq<Fault>, keys: seq<string>, n: nat): Tally
    requires n <= |job.items| == |faults| == |keys|
  {
    if n == 0 then Tally(start, 0, 0, 0, false)
    else
      var t := After(start, job, faults, keys, n - 1);
      if t.threw then t else ImportItem(t, job.items[n - 1], job.slugIndex, faults[n - 1], keys[n - 1])
  }

  function EventsFor(who: nat, fault: Fault, key: string): seq<Event> {
    [Select(who, !fault.SelectFails?), Prepare(who, key, !fault.PrepareFails?),
     Commit(who, !fault.CommitFails?, Lands(fault)), Delete(who, !DeleteFails(fault))]
  }

  /** What the machine and the loop do to an item agree. */
  ghost predicate Refines(job: Job, w: World, who: nat, fault: Fault, key: string)
    requires Active(job, w, who)
  {
    var n := w.importers[who].next;
    var t := ImportItem(Tally(Disk(w.db, w.blobs), 0, 0, 0, false), job.items[n], job.slugIndex, fault, key);
    var w' := Run(job, w, EventsFor(who, fault, key));
    && Disk(w'.db, w'.blobs) == t.disk
    && w'.importers == w.importers[who := if t.threw then Importer(n, Stopped) else Importer(n + 1, Looking)]
  }

  lemma MachineLooks(job: Job, w: World, who: nat, fault: Fault, key: string)
    requires Active(job, w, who) && w.importers[who].phase.Looking?
    requires fault.SelectFails? || HasSlug(w.db, Current(job, w, who).slug)
    ensures Refines(job, w, who, fault, key)
  {
    var es := EventsFor(who, fault, key);
    var w1 := Step(job, w, es[0]);
    assert Step(job, w1, es[1]) == w1 && Step(job, w1, es[2]) == w1 && Step(job, w1, es[3]) == w1;
    RunTrace(job, es, [w, w1, w1, w1, w1]);
  }

  lemma MachineFailsToPrepare(job: Job, w: World, who: nat, key: string)
    requires Active(job, w, who) && w.importers[who].phase.Looking? && Fresh(w, key)
    requires !HasSlug(w.db, Current(job, w, who).slug) && NeedsBlob(Current(job, w, who))
    ensures Refines(job, w, who, PrepareFails, key)
  {
    var es, n := EventsFor(who, PrepareFails, key), w.importers[who].next;
    var w1 := Step(job, w, es[0]);
    assert w1 == At(w, who, n, Preparing);
    var w2 := Step(job, w1, es[1]);
    assert w2.importers == w.importers[who := Importer(n, Stopped)];
    assert Step(job, w2, es[2]) == w2 && Step(job, w2, es[3]) == w2;
    RunTrace(job, es, [w, w1, w2, w2, w2]);
  }

  /** A commit, and the delete that follows if it failed, as the loop does them in one go. */
  lemma CommitThenDelete(job: Job, w: World, who: nat, fault: Fault)
    requires Active(job, w, who) && w.importers[who].phase.Committing?
    ensures
      var n, put, item := w.importers[who].next, w.importers[who].phase.put, Current(job, w, who);
      var fits := CanInsert(w.db, item, job.slugIndex);
      var committed := Step(job, w, Commit(who, !fault.CommitFails?, Lands(fault)));
      var w' := Step(job, committed, Delete(who, !DeleteFails(fault)));
      && w'.db == (if fits && (!fault.CommitFails? || fault.landed) then Insert(w.db, item, put) else w.db)
      && (if fits && !fault.CommitFails? then
            w'.blobs == w.blobs && w'.importers == w.importers[who := Importer(n + 1, Looking)]
          else
            && w'.importers == w.importers[who := Importer(n, Stopped)]
            && w'.blobs == if put.Some? && !DeleteFails(fault) then w.blobs - {put.value} else w.blobs)
  {
  }

  lemma MachineCommits(job: Job, w: World, who: nat, fault: Fault, key: string)
    requires Active(job, w, who) && w.importers[who].phase.Looking? && Fresh(w, key)
    requires !fault.SelectFails? && !HasSlug(w.db, Current(job, w, who).slug)
    requires NeedsBlob(Current(job, w, who)) ==> !fault.PrepareFails?
    ensures Refines(job, w, who, fault, key)
  {
    var es, n := EventsFor(who, fault, key), w.importers[who].next;
    var w1 := Step(job, w, es[0]);
    assert w1 == At(w, who, n, Preparing);
    var w2 := Step(job, w1, es[1]);
    var put := if NeedsBlob(job.items[n]) then Some(key) else None;
    assert w2.importers == w.importers[who := Importer(n, Committing(put))] && w2.db == w.db;
    CommitThenDelete(job, w2, who, fault);
    RunTrace(job, es, [w, w1, w2, Step(job, w2, es[2]), Step(job, Step(job, w2, es[2]), es[3])]);
  }

  lemma MachineImports(job: Job, w: World, who: nat, fault: Fault, key: string)
    requires Active(job, w, who) && w.importers[who].phase.Looking? && Fresh(w, key)
    requires !fault.SelectFails? && !HasSlug(w.db, Current(job, w, who).slug)
    ensures Refines(job, w, who, fault, key)
  {
    if fault.PrepareFails? && NeedsBlob(Current(job, w, who)) {
      MachineFailsToPrepare(job, w, who, key);
    } else {
      MachineCommits(job, w, who, fault, key);
    }
  }

  /** The interleaved machine, run for one importer without interference, does to an item what the loop does. */
  lemma MachineRefinesLoop(job: Job, w: World, who: nat, fault: Fault, key: string)
    requires Active(job, w, who) && w.importers[who].phase.Looking? && Fresh(w, key)
    ensures Refines(job, w, who, fault, key)
  {
    if fault.SelectFails? || HasSlug(w.db, Current(job, w, who).slug) {
      MachineLooks(job, w, who, fault, key);
    } else {
      MachineImports(job, w, who, fault, key);
    }
  }

  /** The events of one importer that works through the first `n` items, alone. */
  function ImportEvents(who: nat, faults: seq<Fault>, keys: seq<string>, n: nat): seq<Event>
    requires n <= |faults| == |keys|
  {
    if n == 0 then [Start(who)] else ImportEvents(who, faults, keys, n - 1) + EventsFor(who, faults[n - 1], keys[n - 1])
  }

  lemma {:induction false} RunConcat(job: Job, w: World, a: seq<Event>, b: seq<Event>)
    ensures Run(job, w, a + b) == Run(job, Run(job, w, a), b)
    decreases a
  {
    if a == [] {
      assert a + b == b;
    } else {
      assert (a + b)[0] == a[0] && (a + b)[1..] == a[1..] + b;
      RunConcat(job, Step(job, w, a[0]), a[1..], b);
    }
  }

  /** Nothing is known under the key. */
  ghost predicate Unused(w: World, key: string) {
    Fresh(w, key) && !Owned(w, key)
  }

  predicate Distinct(keys: seq<string>) {
    forall i, j :: 0 <= i < j < |keys| ==> keys[i] != keys[j]
  }

  /** A step that uses one key leaves others unused. */
  lemma StepKeepsUnused(job: Job, w: World, e: Event, key: string)
    requires Unused(w, key) && (e.Prepare? ==> e.key != key)
    ensures Unused(Step(job, w, e), key)
  {
    var w' := Step(job, w, e);
    StepFrame(job, w, e);
    assert Held(w, e.who) != Some(key);
    forall v ensures !References(w'.db, v, key) {
      assert !References(w.db, v, key);
    }
    forall who ensures Held(w', who) != Some(key) {
      assert Held(w, who) != Some(key);
    }
  }

  lemma {:induction false} RunKeepsUnused(job: Job, w: World, es: seq<Event>, key: string)
    requires Unused(w, key) && forall i :: 0 <= i < |es| && es[i].Prepare? ==> es[i].key != key
    ensures Unused(Run(job, w, es), key)
    decreases es
  {
    if es != [] {
      assert es[0].Prepare? ==> es[0].key != key;
      StepKeepsUnused(job, w, es[0], key);
      assert forall i :: 0 <= i < |es[1..]| ==> es[1..][i] == es[i + 1];
      RunKeepsUnused(job, Step(job, w, es[0]), es[1..], key);
    }
  }

  /** Where the machine and the loop are after `n` items: at the same disk, and stopped exactly when the loop threw. */
  ghost predicate InStep(job: Job, w: World, who: nat, t: Tally, n: nat) {
    && Disk(w.db, w.blobs) == t.disk && who in w.importers
    && if t.threw then w.importers[who].phase.Stopped? else w.importers[who] == Importer(n, Looking)
  }

  /** What the machine does to a disk does not depend on what the loop has counted. */
  lemma CountersDoNotMatter(t: Tally, item: Item, slugIndex: bool, fault: Fault, key: string)
    requires !t.threw
    ensures var a := ImportItem(t, item, slugIndex, fault, key);
      var b := ImportItem(Tally(t.disk, 0, 0, 0, false), item, slugIndex, fault, key);
      a.disk == b.disk && a.threw == b.threw
  {
  }

  lemma StoppedStays(job: Job, w: World, who: nat, fault: Fault, key: string)
    requires who in w.importers && w.importers[who].phase.Stopped?
    ensures Run(job, w, EventsFor(who, fault, key)) == w
  {
    var es := EventsFor(who, fault, key);
    RunTrace(job, es, [w, w, w, w, w]);
  }

  lemma NextInStep(job: Job, w: World, who: nat, start: Disk, faults: seq<Fault>, keys: seq<string>, n: nat)
    requires n < |job.items| == |faults| == |keys| && Fresh(w, keys[n])
    requires InStep(job, w, who, After(start, job, faults, keys, n), n)
    ensures var w' := Run(job, w, EventsFor(who, faults[n], keys[n]));
      InStep(job, w', who, After(start, job, faults, keys, n + 1), n + 1)
  {
    var t := After(start, job, faults, keys, n);
    if t.threw {
      StoppedStays(job, w, who, faults[n], keys[n]);
    } else {
      MachineRefinesLoop(job, w, who, faults[n], keys[n]);
      CountersDoNotMatter(t, job.items[n], job.slugIndex, faults[n], keys[n]);
      AfterNext(start, job, faults, keys, n);
    }
  }

  /**
   * A whole import: one importer alone, started in any world where nothing is known under its keys, leaves the
   * database and the storage that the two loops leave, under any faults, and stops exactly when they throw.
   */
  lemma {:induction false} MachineRefinesImport(
      job: Job, w: World, who: nat, faults: seq<Fault>, keys: seq<string>, n: nat)
    requires n <= |job.items| == |faults| == |keys| && who !in w.importers
    requires Distinct(keys) && forall i :: 0 <= i < |keys| ==> Unused(w, keys[i])
    ensures var w' := Run(job, w, ImportEvents(who, faults, keys, n));
      && InStep(job, w', who, After(Disk(w.db, w.blobs), job, faults, keys, n), n)
      && forall i :: n <= i < |keys| ==> Unused(w', keys[i])
    decreases n
  {
    if n == 0 {
      var w' := Step(job, w, Start(who));
      RunTrace(job, [Start(who)], [w, w']);
      forall i | 0 <= i < |keys| ensures Unused(w', keys[i]) {
        StepKeepsUnused(job, w, Start(who), keys[i]);
      }
    } else {
      MachineRefinesImport(job, w, who, faults, keys, n - 1);
      var before, item := ImportEvents(who, faults, keys, n - 1), EventsFor(who, faults[n - 1], keys[n - 1]);
      RunConcat(job, w, before, item);
      var w1 := Run(job, w, before);
      NextInStep(job, w1, who, Disk(w.db, w.blobs), faults, keys, n - 1);
      forall i | n <= i < |keys| ensures Unused(Run(job, w1, item), keys[i]) {
        RunKeepsUnused(job, w1, item, keys[i]);
      }
    }
  }

  // ---- Progress and reruns ----

  predicate NoFaults(faults: seq<Fault>) {
    forall f :: f in faults ==> f.NoFault?
  }

  /** The item's slug is missing, but one of the identifiers it needs is taken. */
  predicate Blocked(db: Database, items: seq<Item>, i: nat)
    requires i < |items|
  {
    !HasSlug(db, items[i].slug) && FirstOfSlug(items, i) && Clashes(db, items[i])
  }

  /** `db` after the first `n` items: their slugs are there, and identifiers of other slugs are as they were. */
  ghost predicate Advanced(db0: Database, db: Database, items: seq<Item>, n: nat)
    requires n <= |items|
  {
    && (forall slug :: HasSlug(db, slug) <==> HasSlug(db0, slug) || exists j :: 0 <= j < n && items[j].slug == slug)
    && (forall item: Item :: (forall j :: 0 <= j < n ==> items[j].slug != item.slug) ==>
          (Clashes(db, item) <==> Clashes(db0, item)))
  }

  lemma SkipAdvances(db0: Database, db: Database, items: seq<Item>, n: nat)
    requires n < |items| && Advanced(db0, db, items, n) && HasSlug(db, items[n].slug)
    ensures Advanced(db0, db, items, n + 1)
  {
    forall slug
      ensures HasSlug(db, slug) <==> HasSlug(db0, slug) || exists j :: 0 <= j < n + 1 && items[j].slug == slug
    {
      if j :| 0 <= j < n + 1 && items[j].slug == slug {
        assert j == n || HasSlug(db, slug);
      }
    }
  }

  lemma InsertAdvances(db0: Database, db: Database, items: seq<Item>, n: nat, key: Option<string>)
    requires n < |items| && Advanced(db0, db, items, n) && !Clashes(db, items[n])
    ensures Advanced(db0, Insert(db, items[n], key), items, n + 1)
  {
    var db' := Insert(db, items[n], key);
    InsertEffect(db, items[n], key);
    forall slug
      ensures HasSlug(db', slug) <==> HasSlug(db0, slug) || exists j :: 0 <= j < n + 1 && items[j].slug == slug
    {
      if j :| 0 <= j < n + 1 && items[j].slug == slug {
        assert j == n || HasSlug(db, slug);
      }
    }
  }

  lemma BlockedNow(db0: Database, db: Database, items: seq<Item>, n: nat)
    requires n < |items| && Advanced(db0, db, items, n)
    ensures Blocked(db0, items, n) <==> !HasSlug(db, items[n].slug) && Clashes(db, items[n])
  {
  }

  predicate NoneBlocked(db: Database, items: seq<Item>, n: nat)
    requires n <= |items|
  {
    forall i :: 0 <= i < n ==> !Blocked(db, items, i)
  }

  /** What a fault-free import is at after `n` items: it threw at a blocked item, or it advanced. */
  ghost predicate FaultFree(db0: Database, t: Tally, items: seq<Item>, n: nat)
    requires n <= |items|
  {
    && (!t.threw <==> NoneBlocked(db0, items, n))
    && (!t.threw ==> Advanced(db0, t.disk.db, items, n))
  }

  lemma FaultFreeStep(db0: Database, t: Tally, items: seq<Item>, n: nat, slugIndex: bool, key: string)
    requires n < |items| && Advanced(db0, t.disk.db, items, n) && !t.threw
    ensures var t' := ImportItem(t, items[n], slugIndex, NoFault, key);
      && (t'.threw <==> Blocked(db0, items, n))
      && (!t'.threw ==> Advanced(db0, t'.disk.db, items, n + 1))
  {
    BlockedNow(db0, t.disk.db, items, n);
    if HasSlug(t.disk.db, items[n].slug) {
      SkipAdvances(db0, t.disk.db, items, n);
    } else if !Clashes(t.disk.db, items[n]) {
      InsertAdvances(db0, t.disk.db, items, n, if NeedsBlob(items[n]) then Some(key) else None);
    }
  }

  lemma FaultFreeNext(db0: Database, t: Tally, items: seq<Item>, n: nat, slugIndex: bool, key: string)
    requires n < |items| && FaultFree(db0, t, items, n)
    ensures FaultFree(db0, if t.threw then t else ImportItem(t, items[n], slugIndex, NoFault, key), items, n + 1)
  {
    if !t.threw {
      FaultFreeStep(db0, t, items, n, slugIndex, key);
    }
  }

  lemma NothingAdvanced(db0: Database, t: Tally, items: seq<Item>)
    requires t.disk.db == db0 && !t.threw
    ensures FaultFree(db0, t, items, 0)
  {
  }

  lemma FaultFreeTurn(start: Disk, job: Job, faults: seq<Fault>, keys: seq<string>, n: nat)
    requires n < |job.items| == |faults| == |keys| && faults[n] == NoFault
    requires FaultFree(start.db, After(start, job, faults, keys, n), job.items, n)
    ensures FaultFree(start.db, After(start, job, faults, keys, n + 1), job.items, n + 1)
  {
    var t := After(start, job, faults, keys, n);
    var t' := if t.threw then t else ImportItem(t, job.items[n], job.slugIndex, NoFault, keys[n]);
    AfterIs(start, job, faults, keys, n, t');
    FaultFreeNext(start.db, t, job.items, n, job.slugIndex, keys[n]);
  }

  lemma AfterIs(start: Disk, job: Job, faults: seq<Fault>, keys: seq<string>, n: nat, t': Tally)
    requires n < |job.items| == |faults| == |keys|
    requires var t := After(start, job, faults, keys, n);
      t' == if t.threw then t else ImportItem(t, job.items[n], job.slugIndex, faults[n], keys[n])
    ensures After(start, job, faults, keys, n + 1) == t'
  {
  }

  lemma {:induction false} FaultFreeAdvance(start: Disk, job: Job, faults: seq<Fault>, keys: seq<string>, n: nat)
    requires n <= |job.items| == |faults| == |keys| && NoFaults(faults)
    ensures FaultFree(start.db, After(start, job, faults, keys, n), job.items, n)
  {
    if n > 0 {
      FaultFreeAdvance(start, job, faults, keys, n - 1);
      assert faults[n - 1] in faults;
      FaultFreeTurn(start, job, faults, keys, n - 1);
    } else {
      NothingAdvanced(start.db, After(start, job, faults, keys, 0), job.items);
    }
  }

  /**
   * A fault-free import completes, leaving a document for every slug, if and only if no missing slug has one of
   * its identifiers taken already. When it does not complete it throws.
   */
  lemma FaultFreeImportExact(start: Disk, job: Job, faults: seq<Fault>, keys: seq<string>)
    requires |job.items| == |faults| == |keys| && NoFaults(faults)
    ensures var t := After(start, job, faults, keys, |job.items|);
      && (!t.threw <==> NoneBlocked(start.db, job.items, |job.items|))
      && (!t.threw ==> forall i :: 0 <= i < |job.items| ==> HasSlug(t.disk.db, job.items[i].slug))
  {
    FaultFreeAdvance(start, job, faults, keys, |job.items|);
  }

  /** A commit inserts a document only for an item that was not blocked, and blocks or unblocks no other. */
  lemma StepKeepsBlocked(job: Job, w: World, e: Event, i: nat)
    requires SlugsReserved(job, w) && i < |job.items|
    ensures Blocked(Step(job, w, e).db, job.items, i) <==> Blocked(w.db, job.items, i)
  {
    StepFrame(job, w, e);
    if Commits(job, w, e) {
      assert Reserved(job, w, e.who);
      InsertEffect(w.db, Current(job, w, e.who), w.importers[e.who].phase.put);
    }
  }

  lemma {:induction false} RunKeepsBlocked(job: Job, w: World, es: seq<Event>, i: nat)
    requires SlugsReserved(job, w) && i < |job.items|
    ensures Blocked(Run(job, w, es).db, job.items, i) <==> Blocked(w.db, job.items, i)
    decreases es
  {
    if es != [] {
      StepKeepsBlocked(job, w, es[0], i);
      StepReserves(job, w, es[0]);
      RunKeepsBlocked(job, Step(job, w, es[0]), es[1..], i);
    }
  }

  /**
   * However earlier importers interleaved, failed or crashed, a later fault-free rerun completes if and only if no
   * item was blocked before the first of them started: what they left behind neither blocks nor unblocks an item.
   */
  lemma RerunExact(job: Job, w0: World, es: seq<Event>, faults: seq<Fault>, keys: seq<string>)
    requires Initial(w0)
    requires |job.items| == |faults| == |keys| && NoFaults(faults)
    ensures var w := Run(job, w0, es);
      var t := After(Disk(w.db, w.blobs), job, faults, keys, |job.items|);
      && (!t.threw <==> NoneBlocked(w0.db, job.items, |job.items|))
      && (!t.threw ==> forall i :: 0 <= i < |job.items| ==> HasSlug(t.disk.db, job.items[i].slug))
  {
    var w := Run(job, w0, es);
    FaultFreeImportExact(Disk(w.db, w.blobs), job, faults, keys);
    forall i: nat | i < |job.items| ensures Blocked(w.db, job.items, i) <==> Blocked(w0.db, job.items, i) {
      RunKeepsBlocked(job, w0, es, i);
    }
  }

  lemma PresentItemIsSkipped(t: Tally, item: Item, slugIndex: bool, fault: Fault, key: string)
    requires HasSlug(t.disk.db, item.slug)
    ensures ImportItem(t, item, slugIndex, fault, key) ==
      if fault.SelectFails? then t.(threw := true)
      else if item.Registry? then t.(skipped := t.skipped + 1) else t
  {
  }

  /** Nothing stored and nothing imported: a failed select threw, or every registry entry was skipped. */
  ghost predicate Idle(start: Disk, t: Tally, job: Job, faults: seq<Fault>, n: nat)
    requires n <= |job.items| == |faults|
  {
    && t.disk == start && t.imported == 0 && t.drafts == 0
    && (t.threw <==> exists i :: 0 <= i < n && faults[i].SelectFails?)
    && (!t.threw ==> t.skipped == |set i: nat | i < n && job.items[i].Registry?|)
  }

  lemma IdleNext(start: Disk, t: Tally, job: Job, faults: seq<Fault>, key: string, n: nat)
    requires n < |job.items| == |faults| && Idle(start, t, job, faults, n)
    requires HasSlug(start.db, job.items[n].slug)
    ensures var t' := if t.threw then t else ImportItem(t, job.items[n], job.slugIndex, faults[n], key);
      Idle(start, t', job, faults, n + 1)
  {
    PresentItemIsSkipped(t, job.items[n], job.slugIndex, faults[n], key);
    var before := set i: nat | i < n && job.items[i].Registry?;
    var upto := set i: nat | i < n + 1 && job.items[i].Registry?;
    assert upto == before + (if job.items[n].Registry? then {n} else {});
  }

  /** Once every slug has its document, an import changes nothing and imports nothing, whatever else fails. */
  lemma {:induction false} SecondImportIsIdle(start: Disk, job: Job, faults: seq<Fault>, keys: seq<string>, n: nat)
    requires n <= |job.items| == |faults| == |keys|
    requires forall i :: 0 <= i < |job.items| ==> HasSlug(start.db, job.items[i].slug)
    ensures Idle(start, After(start, job, faults, keys, n), job, faults, n)
  {
    if n > 0 {
      SecondImportIsIdle(start, job, faults, keys, n - 1);
      IdleNext(start, After(start, job, faults, keys, n - 1), job, faults, keys[n - 1], n - 1);
    }
  }

  function RegistryCount(items: seq<Item>, n: nat): nat
    requires n <= |items|
  {
    if n == 0 then 0 else RegistryCount(items, n - 1) + if items[n - 1].Registry? then 1 else 0
  }

  /** The item's rows are inserted although its transaction fails for the script. */
  predicate LandsUnseen(t: Tally, item: Item, slugIndex: bool, fault: Fault) {
    !t.threw && !HasSlug(t.disk.db, item.slug) && Lands(fault) && CanInsert(t.disk.db, item, slugIndex)
  }

  predicate LandedUnseen(start: Disk, job: Job, faults: seq<Fault>, keys: seq<string>, n: nat)
    requires n <= |job.items| == |faults| == |keys|
  {
    n > 0 && (
      || LandedUnseen(start, job, faults, keys, n - 1)
      || LandsUnseen(After(start, job, faults, keys, n - 1), job.items[n - 1], job.slugIndex, faults[n - 1]))
  }

  lemma ItemCounters(t: Tally, item: Item, slugIndex: bool, fault: Fault, key: string)
    requires !t.threw
    ensures var t' := ImportItem(t, item, slugIndex, fault, key);
      && |t'.disk.db.docs| - |t.disk.db.docs| ==
           t'.imported + t'.drafts - t.imported - t.drafts + (if LandsUnseen(t, item, slugIndex, fault) then 1 else 0)
      && (LandsUnseen(t, item, slugIndex, fault) ==> t'.threw)
      && (!t'.threw ==>
            t'.imported + t'.skipped == t.imported + t.skipped + if item.Registry? then 1 else 0)
  {
  }

  /**
   * Under any faults: as many documents were added as imports and drafts are counted, and one more exactly when the
   * import threw at a transaction that had taken effect; an import that did not throw imported or skipped every
   * registry entry.
   */
  lemma {:induction false} CountersAreTrue(start: Disk, job: Job, faults: seq<Fault>, keys: seq<string>, n: nat)
    requires n <= |job.items| == |faults| == |keys|
    ensures var t := After(start, job, faults, keys, n);
      var unseen := LandedUnseen(start, job, faults, keys, n);
      && |t.disk.db.docs| == |start.db.docs| + t.imported + t.drafts + (if unseen then 1 else 0)
      && (unseen ==> t.threw)
      && (!t.threw ==> t.imported + t.skipped == RegistryCount(job.items, n))
  {
    if n > 0 {
      CountersAreTrue(start, job, faults, keys, n - 1);
      var t := After(start, job, faults, keys, n - 1);
      if !t.threw {
        ItemCounters(t, job.items[n - 1], job.slugIndex, faults[n - 1], keys[n - 1]);
      }
    }
  }

  /** The script over the database and the object storage it connects to. */
  class ImportScript {
    var docs: map<string, Doc>
    var versions: map<string, Version>
    var blobs: set<string>
    var imported: nat
    var skipped: nat
    var launchDrafts: nat

    function Contents(): Disk
      reads this
    {
      Disk(Database(docs, versions), blobs)
    }

    function Counted(threw: bool): Tally
      reads this
    {
      Tally(Contents(), imported, skipped, launchDrafts, threw)
    }

    /** Both inserts or neither; `false` is an exception, which may hide that both were made. */
    method Transact(item: Item, storageKey: Option<string>, slugIndex: bool, fault: Fault) returns (committed: bool)
      modifies this`docs, this`versions
      ensures var db := old(Contents()).db;
        && (committed <==> !fault.CommitFails? && CanInsert(db, item, slugIndex))
        && Contents() == Disk(
             if committed || (Lands(fault) && CanInsert(db, item, slugIndex)) then Insert(db, item, storageKey) else db,
             blobs)
    {
      if (fault.CommitFails? && !fault.landed) || !CanInsert(Database(docs, versions), item, slugIndex) {
        return false;
      }
      docs := docs[DocId(item) := DocRow(item)];
      versions := versions[VersionId(item) := VersionRow(item, storageKey)];
      return !fault.CommitFails?;
    }

    /** One turn of the catalogue loop. */
    method ImportEntry(source: Item, slugIndex: bool, fault: Fault, key: string) returns (threw: bool)
      requires source.Registry?
      modifies this
      ensures Counted(threw) == ImportItem(old(Counted(false)), source, slugIndex, fault, key)
    {
      if fault.SelectFails? {
        return true;
      }
      if HasSlug(Database(docs, versions), source.slug) {
        skipped := skipped + 1;
        return false;
      }
      var storageKey := None;
      if source.file {
        if fault.PrepareFails? {
          return true;
        }
        blobs := blobs + {key};
        storageKey := Some(key);
      }
      var committed := Transact(source, storageKey, slugIndex, fault);
      if !committed {
        if storageKey.Some? && !DeleteFails(fault) {
          blobs := blobs - {storageKey.value};
        }
        return true;
      }
      imported := imported + 1;
      return false;
    }

    /** One turn of the launch-draft loop. */
    method ImportSeed(seed: Item, slugIndex: bool, fault: Fault, ghost key: string) returns (threw: bool)
      requires seed.Seed?
      modifies this
      ensures Counted(threw) == ImportItem(old(Counted(false)), seed, slugIndex, fault, key)
    {
      if fault.SelectFails? {
        return true;
      }
      if HasSlug(Database(docs, versions), seed.slug) {
        return false;
      }
      var committed := Transact(seed, None, slugIndex, fault);
      if !committed {
        return true;
      }
      launchDrafts := launchDrafts + 1;
      return false;
    }

    /** The script stands where the fold does after `n` items. */
    ghost predicate Stands(start: Disk, job: Job, faults: seq<Fault>, keys: seq<string>, n: nat, threw: bool)
      reads this
      requires n <= |job.items| == |faults| == |keys|
    {
      Counted(threw) == After(start, job, faults, keys, n)
    }

    /** Item `n` of the job, turned over by the catalogue loop. */
    method EntryTurn(entry: Item, job: Job, faults: seq<Fault>, keys: seq<string>, n: nat, ghost start: Disk)
      returns (threw: bool)
      requires n < |job.items| == |faults| == |keys| && entry == job.items[n] && entry.Registry?
      requires Stands(start, job, faults, keys, n, false)
      modifies this
      ensures Stands(start, job, faults, keys, n + 1, threw)
    {
      AfterNext(start, job, faults, keys, n);
      threw := ImportEntry(entry, job.slugIndex, faults[n], keys[n]);
    }

    /** Item `n` of the job, turned over by the launch-draft loop. */
    method SeedTurn(seed: Item, job: Job, faults: seq<Fault>, keys: seq<string>, n: nat, ghost start: Disk)
      returns (threw: bool)
      requires n < |job.items| == |faults| == |keys| && seed == job.items[n] && seed.Seed?
      requires Stands(start, job, faults, keys, n, false)
      modifies this
      ensures Stands(start, job, faults, keys, n + 1, threw)
    {
      AfterNext(start, job, faults, keys, n);
      threw := ImportSeed(seed, job.slugIndex, faults[n], keys[n]);
    }

    /** The catalogue loop; `n` items were turned over. */
    method ImportRegistry(registry: seq<Item>, job: Job, faults: seq<Fault>, keys: seq<string>)
      returns (threw: bool, ghost n: nat)
      requires |registry| <= |job.items| == |faults| == |keys|
      requires forall i :: 0 <= i < |registry| ==> registry[i] == job.items[i] && registry[i].Registry?
      requires imported == skipped == launchDrafts == 0
      modifies this
      ensures n <= |registry| && (!threw ==> n == |registry|)
      ensures Stands(old(Contents()), job, faults, keys, n, threw)
    {
      ghost var start := Contents();
      for i := 0 to |registry|
        invariant Stands(start, job, faults, keys, i, false)
      {
        threw := EntryTurn(registry[i], job, faults, keys, i, start);
        if threw {
          return true, i + 1;
        }
      }
      return false, |registry|;
    }

    /** The launch-draft loop, after the first `done` items. */
    method ImportSeeds(seeds: seq<Item>, job: Job, faults: seq<Fault>, keys: seq<string>, done: nat, ghost start: Disk)
      returns (threw: bool, ghost n: nat)
      requires done + |seeds| == |job.items| == |faults| == |keys|
      requires forall i :: done <= i < |job.items| ==> job.items[i] == seeds[i - done] && job.items[i].Seed?
      requires Stands(start, job, faults, keys, done, false)
      modifies this
      ensures n <= |job.items| && (!threw ==> n == |job.items|)
      ensures Stands(start, job, faults, keys, n, threw)
    {
      for at := done to |job.items|
        invariant Stands(start, job, faults, keys, at, false)
      {
        threw := SeedTurn(seeds[at - done], job, faults, keys, at, start);
        if threw {
          return true, at + 1;
        }
      }
      return false, |job.items|;
    }

    /** Both loops: what is stored and counted in the end is what the items, one after the other, amount to. */
    method ImportAll(registry: seq<Item>, seeds: seq<Item>, slugIndex: bool, faults: seq<Fault>, keys: seq<string>)
      returns (threw: bool)
      requires forall item :: item in registry ==> item.Registry?
      requires forall item :: item in seeds ==> item.Seed?
      requires |faults| == |keys| == |registry| + |seeds|
      modifies this
      ensures Counted(threw) ==
        After(old(Contents()), Job(registry + seeds, slugIndex), faults, keys, |registry| + |seeds|)
    {
      var job := Job(registry + seeds, slugIndex);
      ghost var start, n := Contents(), 0;
      imported, skipped, launchDrafts := 0, 0, 0;
      threw, n := ImportRegistry(registry, job, faults, keys);
      if !threw {
        threw, n := ImportSeeds(seeds, job, faults, keys, |registry|, start);
      }
      if threw {
        ThrownStays(start, job, faults, keys, n);
      }
    }
  }

  lemma AfterNext(start: Disk, job: Job, faults: seq<Fault>, keys: seq<string>, n: nat)
    requires n < |job.items| == |faults| == |keys| && !After(start, job, faults, keys, n).threw
    ensures After(start, job, faults, keys, n + 1) ==
      ImportItem(After(start, job, faults, keys, n), job.items[n], job.slugIndex, faults[n], keys[n])
  {
  }

  /** A throw ends the import: later items change nothing. */
  lemma ThrownStays(start: Disk, job: Job, faults: seq<Fault>, keys: seq<string>, n: nat)
    requires n <= |job.items| == |faults| == |keys| && After(start, job, faults, keys, n).threw
    ensures After(start, job, faults, keys, |job.items|) == After(start, job, faults, keys, n)
    decreases |job.items| - n
  {
    if n < |job.items| {
      ThrownStays(start, job, faults, keys, n + 1);
    }
  }
}
