/**
 The multi-tenant configuration store: a global site catalogue and, per owner, products, sources,
 digest jobs and the links between jobs and sources. Tables are maps on their primary keys. Each
 operation is one transaction: an operation that raises leaves every table unchanged.
 */
module ConfigStore {
  import opened Wrappers

  datatype ProductKey = ProductKey(owner: string, key: string)
  datatype SourceKey = SourceKey(owner: string, id: string)
  datatype LinkKey = LinkKey(job: string, source: string)

  datatype Source = Source(product: string, site: string, url: string)

  /** The columns of a job that its owner edits, apart from the name. */
  datatype JobSettings = JobSettings(
    frequency: string, cron: string, timezone: string, template: string, options: string, enabled: bool)

  datatype JobRow = JobRow(owner: string, name: string, settings: JobSettings, createdAt: string)

  type Links = map<LinkKey, string>
  type Sources = map<SourceKey, Source>

  /** `links` maps a (job, source) pair to the owner stored in the row. */
  datatype Tables = Tables(
    sites: map<string, string>, products: map<ProductKey, string>, sources: Sources,
    jobs: map<string, JobRow>, links: Links)

  datatype Op =
    | AddSite(name: string, config: string)
    | AddProduct(owner: string, key: string, title: string)
    | AddSource(owner: string, id: string, source: Source)
    | RemoveSource(owner: string, id: string)
    | RemoveProduct(owner: string, key: string)
    | CreateJob(owner: string, id: string, title: string, settings: JobSettings, createdAt: string, linked: seq<string>)
    | UpdateJob(owner: string, id: string, title: string, settings: JobSettings)
    | DeleteJob(owner: string, id: string)
    | AddJobSource(owner: string, id: string, sourceId: string)
    | RemoveJobSource(owner: string, id: string, sourceId: string)

  /** What the caller sees: `Unknown` is the KeyError, `Conflict` the integrity or config error. */
  datatype Response = Ok | Linked(ids: seq<string>) | Holds(sources: set<string>) | Flag(b: bool) | Unknown | Conflict

  // ----- Operations

  /** `_link_sources`: link those of `ids` that the owner has and that are not linked yet. */
  function LinkAll(sources: Sources, links: Links, o: string, job: string, ids: seq<string>): (Links, seq<string>) {
    if ids == [] then (links, [])
    else
      var n := |ids| - 1;
      var (l, done) := LinkAll(sources, links, o, job, ids[..n]);
      if SourceKey(o, ids[n]) in sources && LinkKey(job, ids[n]) !in l
      then (l[LinkKey(job, ids[n]) := o], done + [ids[n]])
      else (l, done)
  }

  predicate Owns(t: Tables, o: string, id: string) {
    id in t.jobs && t.jobs[id].owner == o
  }

  predicate NameTaken(t: Tables, o: string, name: string, except: Option<string>) {
    exists id | id in t.jobs :: t.jobs[id].owner == o && t.jobs[id].name == name && except != Some(id)
  }

  predicate UrlTaken(t: Tables, o: string, s: Source) {
    exists k | k in t.sources :: k.owner == o && t.sources[k] == s
  }

  /** Deleting sources cascades to the links that name them. */
  function DropSources(t: Tables, gone: set<SourceKey>): Tables {
    t.(sources := t.sources - gone,
       links := map l | l in t.links && SourceKey(t.links[l], l.source) !in gone :: t.links[l])
  }

  function ProductSources(t: Tables, o: string, key: string): set<SourceKey> {
    set k | k in t.sources && k.owner == o && t.sources[k].product == key
  }

  function LinkedSources(t: Tables, o: string, id: string): set<string> {
    set l | l in t.links && l.job == id && t.links[l] == o :: l.source
  }

  /** Deleting a job cascades to its links. */
  function Unlink(links: Links, job: string): Links {
    map l | l in links && l.job != job :: links[l]
  }

  function Apply(t: Tables, op: Op): (Tables, Response) {
    match op
    case AddSite(name, config) => (t.(sites := t.sites[name := config]), Ok)
    case AddProduct(o, key, title) => (t.(products := t.products[ProductKey(o, key) := title]), Ok)
    case AddSource(o, id, s) =>
      if SourceKey(o, id) in t.sources then (t, Ok)
      else if UrlTaken(t, o, s) || ProductKey(o, s.product) !in t.products || s.site !in t.sites then (t, Conflict)
      else (t.(sources := t.sources[SourceKey(o, id) := s]), Ok)
    case RemoveSource(o, id) => (DropSources(t, {SourceKey(o, id)}), Ok)
    case RemoveProduct(o, key) =>
      if ProductKey(o, key) !in t.products then (t, Unknown)
      else
        var u := DropSources(t, ProductSources(t, o, key));
        (u.(products := u.products - {ProductKey(o, key)}), Ok)
    case CreateJob(o, id, title, settings, createdAt, ids) =>
      if id in t.jobs || NameTaken(t, o, title, None) then (t, Conflict)
      else
        var (links, done) := LinkAll(t.sources, t.links, o, id, ids);
        (t.(jobs := t.jobs[id := JobRow(o, title, settings, createdAt)], links := links), Linked(done))
    case UpdateJob(o, id, title, settings) =>
      if !Owns(t, o, id) then (t, Unknown)
      else if NameTaken(t, o, title, Some(id)) then (t, Conflict)
      else (t.(jobs := t.jobs[id := t.jobs[id].(name := title, settings := settings)]), Holds(LinkedSources(t, o, id)))
    case DeleteJob(o, id) =>
      if !Owns(t, o, id) then (t, Unknown)
      else (t.(jobs := t.jobs - {id}, links := Unlink(t.links, id)), Ok)
    case AddJobSource(o, id, s) =>
      if !Owns(t, o, id) then (t, Unknown)
      else
        var (links, done) := LinkAll(t.sources, t.links, o, id, [s]);
        (t.(links := links), Flag(done != []))
    case RemoveJobSource(o, id, s) =>
      (t.(links := map l | l in t.links && !(l == LinkKey(id, s) && t.links[l] == o) :: t.links[l]), Ok)
  }

  lemma {:induction false} LinkAllMeaning(sources: Sources, links: Links, o: string, job: string, ids: seq<string>)
    ensures var l := LinkAll(sources, links, o, job, ids).0;
            && links.Keys <= l.Keys
            && (forall k | k in links :: l[k] == links[k])
            && (forall k | k in l && k !in links :: l[k] == o && k.job == job && SourceKey(o, k.source) in sources)
  {
    if ids != [] {
      LinkAllMeaning(sources, links, o, job, ids[..|ids| - 1]);
    }
  }

  /** Where `s` first occurs in `ids`. */
  function FirstAt(ids: seq<string>, s: string): (i: nat)
    requires s in ids
    ensures i < |ids| && ids[i] == s && s !in ids[..i]
  {
    if ids[0] == s then 0
    else
      assert ids == [ids[0]] + ids[1..];
      1 + FirstAt(ids[1..], s)
  }

  /** What linking `ids` to a job means: afterwards a given source is linked exactly if it was before or
      the owner has it, new rows carry the owner, all else is as before, and the answer lists the
      sources newly linked in the order of their first mention, so without repeats. */
  ghost predicate LinksGiven(ids: seq<string>, o: string, job: string, sources: Sources, before: Links, after: Links,
                             linked: seq<string>) {
    && (forall s | s in ids :: LinkKey(job, s) in after <==> LinkKey(job, s) in before || SourceKey(o, s) in sources)
    && (forall l | l in before :: l in after && after[l] == before[l])
    && (forall l | l in after && l !in before :: l.job == job && l.source in ids && after[l] == o)
    && (forall s :: s in linked <==> LinkKey(job, s) in after && LinkKey(job, s) !in before)
    && (forall s | s in linked :: s in ids)
    && (forall i, j | 0 <= i < j < |linked| :: FirstAt(ids, linked[i]) < FirstAt(ids, linked[j]))
  }

  lemma {:induction false} FirstAtPrefix(ids: seq<string>, last: string, s: string)
    requires s in ids
    ensures FirstAt(ids + [last], s) == FirstAt(ids, s)
  {
    if ids[0] != s {
      assert ids == [ids[0]] + ids[1..];
      assert (ids + [last])[1..] == ids[1..] + [last];
      FirstAtPrefix(ids[1..], last, s);
    }
  }

  lemma {:induction false} LinkAllLinks(sources: Sources, links: Links, o: string, job: string, ids: seq<string>)
    ensures var (l, done) := LinkAll(sources, links, o, job, ids);
            LinksGiven(ids, o, job, sources, links, l, done)
  {
    if ids != [] {
      var (n, s) := (|ids| - 1, ids[|ids| - 1]);
      var (l, done) := LinkAll(sources, links, o, job, ids[..n]);
      LinkAllLinks(sources, links, o, job, ids[..n]);
      assert ids == ids[..n] + [s];
      assert forall x :: x in ids <==> x in ids[..n] || x == s;
      forall x | x in ids[..n] ensures FirstAt(ids, x) == FirstAt(ids[..n], x) {
        FirstAtPrefix(ids[..n], s, x);
      }
      if SourceKey(o, s) in sources && LinkKey(job, s) !in l {
        assert s !in ids[..n] ==> FirstAt(ids, s) == n;
        assert forall x :: x in done + [s] <==> x in done || x == s;
      }
    }
  }

  lemma LinkOne(sources: Sources, links: Links, o: string, job: string, s: string)
    ensures LinkAll(sources, links, o, job, [s]) ==
            if SourceKey(o, s) in sources && LinkKey(job, s) !in links then (links[LinkKey(job, s) := o], [s])
            else (links, [])
  {
    var ids: seq<string>, none: seq<string> := [s], [];
    assert ids[..|ids| - 1] == none && ids[|ids| - 1] == s && none + [s] == ids;
    assert LinkAll(sources, links, o, job, none) == (links, none);
  }

  // ----- The store object

  class SqliteConfigStore {
    var sites: map<string, string>
    var products: map<ProductKey, string>
    var sources: Sources
    var jobs: map<string, JobRow>
    var links: Links

    function Contents(): Tables
      reads this
    {
      Tables(sites, products, sources, jobs, links)
    }

    constructor ()
      ensures Contents() == Tables(map[], map[], map[], map[], map[])
    {
      sites, products, sources, jobs, links := map[], map[], map[], map[], map[];
    }

    method AddSite(name: string, config: string) returns (r: Response)
      modifies this
      ensures (Contents(), r) == Apply(old(Contents()), Op.AddSite(name, config))
      ensures r == Ok && Contents() == old(Contents()).(sites := old(sites)[name := config])
    {
      sites := sites[name := config];
      r := Ok;
    }

    method AddProduct(o: string, key: string, title: string) returns (r: Response)
      modifies this
      ensures (Contents(), r) == Apply(old(Contents()), Op.AddProduct(o, key, title))
      ensures r == Ok && Contents() == old(Contents()).(products := old(products)[ProductKey(o, key) := title])
    {
      products := products[ProductKey(o, key) := title];
      r := Ok;
    }

    method AddSource(o: string, id: string, s: Source) returns (r: Response)
      modifies this
      ensures (Contents(), r) == Apply(old(Contents()), Op.AddSource(o, id, s))
      ensures r == Ok <==> SourceKey(o, id) in sources
      ensures r == Ok || r == Conflict
      ensures r == Conflict <==>
                && SourceKey(o, id) !in old(sources)
                && ((exists k | k in old(sources) :: k.owner == o && old(sources)[k] == s)
                    || ProductKey(o, s.product) !in products || s.site !in sites)
      ensures r == Ok && SourceKey(o, id) !in old(sources) ==> sources[SourceKey(o, id)] == s
      ensures sites == old(sites) && products == old(products) && jobs == old(jobs) && links == old(links)
      ensures r != Ok || SourceKey(o, id) in old(sources) ==> Contents() == old(Contents())
      ensures forall k | k != SourceKey(o, id) ::
                (k in sources <==> k in old(sources)) && (k in sources ==> sources[k] == old(sources)[k])
    {
      if SourceKey(o, id) in sources {
        return Ok;
      }
      if UrlTaken(Contents(), o, s) || ProductKey(o, s.product) !in products || s.site !in sites {
        return Conflict;
      }
      sources := sources[SourceKey(o, id) := s];
      r := Ok;
    }

    method RemoveSource(o: string, id: string) returns (r: Response)
      modifies this
      ensures (Contents(), r) == Apply(old(Contents()), Op.RemoveSource(o, id))
      ensures SourceKey(o, id) !in sources && forall l | l in links :: !(l.source == id && links[l] == o)
      ensures forall k | k in old(sources) && k != SourceKey(o, id) :: k in sources && sources[k] == old(sources)[k]
      ensures forall l | l in old(links) && !(l.source == id && old(links)[l] == o) ::
                l in links && links[l] == old(links)[l]
      ensures r == Ok && sources.Keys <= old(sources).Keys && links.Keys <= old(links).Keys
      ensures sites == old(sites) && products == old(products) && jobs == old(jobs)
    {
      var gone := {SourceKey(o, id)};
      links := map l | l in links && SourceKey(links[l], l.source) !in gone :: links[l];
      sources := sources - gone;
      r := Ok;
    }

    method RemoveProduct(o: string, key: string) returns (r: Response)
      modifies this
      ensures (Contents(), r) == Apply(old(Contents()), Op.RemoveProduct(o, key))
      ensures r == Ok <==> ProductKey(o, key) in old(products)
      ensures r == Ok ==> ProductKey(o, key) !in products
                          && forall k | k in sources :: !(k.owner == o && sources[k].product == key)
      ensures r == Ok || (r == Unknown && Contents() == old(Contents()))
      ensures forall k | k in old(sources) && !(k.owner == o && old(sources)[k].product == key) ::
                k in sources && sources[k] == old(sources)[k]
      ensures forall k | k in old(products) && k != ProductKey(o, key) ::
                k in products && products[k] == old(products)[k]
      ensures forall l | l in old(links) && SourceKey(old(links)[l], l.source) in sources ::
                l in links && links[l] == old(links)[l]
      ensures sites == old(sites) && jobs == old(jobs)
    {
      if ProductKey(o, key) !in products {
        return Unknown;
      }
      var gone := ProductSources(Contents(), o, key);
      links := map l | l in links && SourceKey(links[l], l.source) !in gone :: links[l];
      sources := sources - gone;
      products := products - {ProductKey(o, key)};
      r := Ok;
    }

    method LinkSources(o: string, job: string, ids: seq<string>) returns (linked: seq<string>)
      modifies this`links
      ensures (links, linked) == LinkAll(sources, old(links), o, job, ids)
      ensures LinksGiven(ids, o, job, sources, old(links), links, linked)
    {
      linked := [];
      var i := 0;
      while i < |ids|
        invariant 0 <= i <= |ids|
        invariant (links, linked) == LinkAll(sources, old(links), o, job, ids[..i])
      {
        assert ids[..i + 1][..i] == ids[..i];
        if SourceKey(o, ids[i]) in sources && LinkKey(job, ids[i]) !in links {
          links := links[LinkKey(job, ids[i]) := o];
          linked := linked + [ids[i]];
        }
        i := i + 1;
      }
      assert ids[..i] == ids;
      LinkAllLinks(sources, old(links), o, job, ids);
    }

    method CreateJob(o: string, id: string, title: string, settings: JobSettings, createdAt: string, ids: seq<string>)
      returns (r: Response)
      modifies this
      ensures (Contents(), r) == Apply(old(Contents()), Op.CreateJob(o, id, title, settings, createdAt, ids))
      ensures r.Linked? || r == Conflict
      ensures r == Conflict <==>
                id in old(jobs) || exists i | i in old(jobs) :: old(jobs)[i].owner == o && old(jobs)[i].name == title
      ensures r.Linked? ==> LinksGiven(ids, o, id, sources, old(links), links, r.ids)
      ensures r == Conflict ==> Contents() == old(Contents())
      ensures r.Linked? ==> id !in old(jobs) && jobs == old(jobs)[id := JobRow(o, title, settings, createdAt)]
      ensures r.Linked? ==> forall s :: LinkKey(id, s) in links && LinkKey(id, s) !in old(links) <==> s in r.ids
      ensures r.Linked? ==> forall s | s in r.ids ::
                s in ids && SourceKey(o, s) in sources && links[LinkKey(id, s)] == o
      ensures forall l | l in old(links) :: l in links && links[l] == old(links)[l]
    {
      if id in jobs || NameTaken(Contents(), o, title, None) {
        return Conflict;
      }
      jobs := jobs[id := JobRow(o, title, settings, createdAt)];
      LinkAllMeaning(sources, links, o, id, ids);
      var linked := LinkSources(o, id, ids);
      r := Linked(linked);
    }

    method UpdateJob(o: string, id: string, title: string, settings: JobSettings) returns (r: Response)
      modifies this
      ensures (Contents(), r) == Apply(old(Contents()), Op.UpdateJob(o, id, title, settings))
      ensures r.Holds? ==> id in jobs && jobs[id].owner == o && jobs[id].name == title && jobs[id].settings == settings
      ensures r == Unknown <==> !(id in old(jobs) && old(jobs)[id].owner == o)
      ensures r == Conflict <==>
                && id in old(jobs) && old(jobs)[id].owner == o
                && exists i | i in old(jobs) :: i != id && old(jobs)[i].owner == o && old(jobs)[i].name == title
      ensures r.Holds? || r == Unknown || r == Conflict
      ensures r.Holds? ==> forall s :: s in r.sources <==> LinkKey(id, s) in links && links[LinkKey(id, s)] == o
      ensures r.Holds? ==> jobs == old(jobs)[id := JobRow(o, title, settings, old(jobs)[id].createdAt)]
      ensures !r.Holds? ==> Contents() == old(Contents())
      ensures links == old(links) && sources == old(sources) && products == old(products) && sites == old(sites)
    {
      if !Owns(Contents(), o, id) {
        return Unknown;
      }
      if NameTaken(Contents(), o, title, Some(id)) {
        return Conflict;
      }
      r := Holds(LinkedSources(Contents(), o, id));
      jobs := jobs[id := jobs[id].(name := title, settings := settings)];
    }

    method DeleteJob(o: string, id: string) returns (r: Response)
      modifies this
      ensures (Contents(), r) == Apply(old(Contents()), Op.DeleteJob(o, id))
      ensures r == Ok <==> id in old(jobs) && old(jobs)[id].owner == o
      ensures r == Ok || (r == Unknown && Contents() == old(Contents()))
      ensures r == Ok ==> jobs == old(jobs) - {id} && forall l | l in links :: l.job != id
      ensures sources == old(sources) && products == old(products) && sites == old(sites)
      ensures forall l | l in old(links) && l.job != id :: l in links && links[l] == old(links)[l]
    {
      if !Owns(Contents(), o, id) {
        return Unknown;
      }
      links := Unlink(links, id);
      jobs := jobs - {id};
      r := Ok;
    }

    method AddJobSource(o: string, id: string, s: string) returns (r: Response)
      modifies this
      ensures (Contents(), r) == Apply(old(Contents()), Op.AddJobSource(o, id, s))
      ensures r == Unknown <==> !Owns(old(Contents()), o, id)
      ensures r == Flag(true) <==>
                Owns(old(Contents()), o, id) && SourceKey(o, s) in sources && LinkKey(id, s) !in old(links)
      ensures links == if r == Flag(true) then old(links)[LinkKey(id, s) := o] else old(links)
      ensures jobs == old(jobs) && sources == old(sources)
    {
      if !Owns(Contents(), o, id) {
        return Unknown;
      }
      LinkOne(sources, links, o, id, s);
      var linked := LinkSources(o, id, [s]);
      r := Flag(linked != []);
    }

    method RemoveJobSource(o: string, id: string, s: string) returns (r: Response)
      modifies this
      ensures (Contents(), r) == Apply(old(Contents()), Op.RemoveJobSource(o, id, s))
      ensures LinkKey(id, s) in links <==> LinkKey(id, s) in old(links) && old(links)[LinkKey(id, s)] != o
      ensures forall l | l in old(links) && l != LinkKey(id, s) :: l in links && links[l] == old(links)[l]
      ensures r == Ok && links.Keys <= old(links).Keys
      ensures jobs == old(jobs) && sources == old(sources) && products == old(products) && sites == old(sites)
    {
      links := map l | l in links && !(l == LinkKey(id, s) && links[l] == o) :: links[l];
      r := Ok;
    }
  }

  // ----- Links join rows of one owner

  /** Every link's owner is the owner of its job and of its source. */
  ghost predicate LinksOwned(t: Tables) {
    forall l | l in t.links :: Owns(t, t.links[l], l.job) && SourceKey(t.links[l], l.source) in t.sources
  }

  /** Every job was created by the owner that issued its id. */
  ghost predicate JobsIssued(t: Tables, issuer: string -> string) {
    forall id | id in t.jobs :: t.jobs[id].owner == issuer(id)
  }

  ghost predicate Issued(op: Op, issuer: string -> string) {
    op.CreateJob? ==> issuer(op.id) == op.owner
  }

  lemma ApplyKeepsLinks(t: Tables, op: Op)
    requires LinksOwned(t)
    ensures LinksOwned(Apply(t, op).0)
  {
    match op {
      case CreateJob(o, id, _, _, _, ids) => LinkAllMeaning(t.sources, t.links, o, id, ids);
      case AddJobSource(o, id, s) => LinkAllMeaning(t.sources, t.links, o, id, [s]);
      case _ =>
    }
  }

  lemma ApplyKeepsIssued(t: Tables, op: Op, issuer: string -> string)
    requires JobsIssued(t, issuer) && Issued(op, issuer)
    ensures JobsIssued(Apply(t, op).0, issuer)
  {
  }

  // ----- Integrity

  /** The constraints of the schema: a source's product and site exist, an owner has no two sources
      with one product, site and URL, and no two jobs with one name. */
  ghost predicate Integrity(t: Tables) {
    && (forall k | k in t.sources ::
          ProductKey(k.owner, t.sources[k].product) in t.products && t.sources[k].site in t.sites)
    && (forall k, l | k in t.sources && l in t.sources && k.owner == l.owner && t.sources[k] == t.sources[l] :: k == l)
    && (forall i, j | i in t.jobs && j in t.jobs && t.jobs[i].owner == t.jobs[j].owner
                      && t.jobs[i].name == t.jobs[j].name :: i == j)
  }

  lemma RemoveProductKeepsIntegrity(t: Tables, o: string, key: string)
    requires Integrity(t)
    ensures Integrity(Apply(t, Op.RemoveProduct(o, key)).0)
  {
    var gone := ProductSources(t, o, key);
    forall k | k in t.sources && k !in gone ensures ProductKey(k.owner, t.sources[k].product) != ProductKey(o, key) {
    }
  }

  lemma SourceOpKeepsIntegrity(t: Tables, op: Op)
    requires Integrity(t) && (op.AddSite? || op.AddProduct? || op.AddSource? || op.RemoveSource? || op.RemoveProduct?)
    ensures Integrity(Apply(t, op).0)
  {
    if op.RemoveProduct? {
      RemoveProductKeepsIntegrity(t, op.owner, op.key);
    }
  }

  lemma ApplyKeepsIntegrity(t: Tables, op: Op)
    requires Integrity(t)
    ensures Integrity(Apply(t, op).0)
  {
    if op.AddSite? || op.AddProduct? || op.AddSource? || op.RemoveSource? || op.RemoveProduct? {
      SourceOpKeepsIntegrity(t, op);
    }
  }

  /** Importing a configuration twice is the same as importing it once: an upsert that succeeded
      succeeds again and changes nothing. */
  lemma ImportIsIdempotent(t: Tables, op: Op)
    requires (op.AddSite? || op.AddProduct? || op.AddSource?) && Apply(t, op).1 == Ok
    ensures Apply(Apply(t, op).0, op) == (Apply(t, op).0, Ok)
  {
    var u := Apply(t, op).0;
    match op {
      case AddSite(name, config) => assert u.sites[name := config] == u.sites;
      case AddProduct(o, key, title) => assert u.products[ProductKey(o, key) := title] == u.products;
      case AddSource(_, _, _) =>
    }
  }

  // ----- What one operation undoes

  /** Removing a source that was just added restores every table. */
  lemma RemoveUndoesAddSource(t: Tables, o: string, id: string, s: Source)
    requires LinksOwned(t) && SourceKey(o, id) !in t.sources && Apply(t, Op.AddSource(o, id, s)).1 == Ok
    ensures Apply(Apply(t, Op.AddSource(o, id, s)).0, Op.RemoveSource(o, id)) == (t, Ok)
  {
    var v := Apply(Apply(t, Op.AddSource(o, id, s)).0, Op.RemoveSource(o, id)).0;
    assert v.sources == t.sources;
    assert v.links == t.links;
  }

  function RemoveEach(t: Tables, o: string, ids: seq<string>): Tables {
    if ids == [] then t
    else Apply(RemoveEach(t, o, ids[..|ids| - 1]), Op.RemoveSource(o, ids[|ids| - 1])).0
  }

  lemma {:induction false} RemoveEachMeaning(t: Tables, o: string, ids: seq<string>)
    ensures var u := RemoveEach(t, o, ids);
            && u == t.(sources := u.sources, links := u.links)
            && (forall k :: k in u.sources <==> k in t.sources && !(k.owner == o && k.id in ids))
            && (forall l :: l in u.links <==> l in t.links && !(t.links[l] == o && l.source in ids))
            && (forall k | k in u.sources :: u.sources[k] == t.sources[k])
            && (forall l | l in u.links :: u.links[l] == t.links[l])
  {
    if ids != [] {
      var n := |ids| - 1;
      RemoveEachMeaning(t, o, ids[..n]);
      assert forall id :: id in ids <==> id in ids[..n] || id == ids[n] by { assert ids == ids[..n] + [ids[n]]; }
    }
  }

  lemma RemoveEachDrops(t: Tables, o: string, ids: seq<string>, gone: set<SourceKey>)
    requires forall k :: k in gone <==> k.owner == o && k.id in ids
    ensures RemoveEach(t, o, ids) == DropSources(t, gone)
  {
    RemoveEachMeaning(t, o, ids);
    var u := RemoveEach(t, o, ids);
    assert u.sources == DropSources(t, gone).sources;
    assert u.links == DropSources(t, gone).links;
  }

  lemma DropNone(t: Tables)
    ensures DropSources(t, {}) == t
  {
    assert DropSources(t, {}).links == t.links;
  }

  /** Removing a product does what removing each of its sources, in any order, and then the emptied
      product does. */
  lemma RemoveProductBySources(t: Tables, o: string, key: string, ids: seq<string>)
    requires ProductKey(o, key) in t.products
    requires forall id :: id in ids <==> SourceKey(o, id) in ProductSources(t, o, key)
    ensures ProductSources(RemoveEach(t, o, ids), o, key) == {}
    ensures Apply(t, Op.RemoveProduct(o, key)) == Apply(RemoveEach(t, o, ids), Op.RemoveProduct(o, key))
  {
    var gone := ProductSources(t, o, key);
    forall k ensures k in gone <==> k.owner == o && k.id in ids {
      assert k.owner == o ==> k == SourceKey(o, k.id);
    }
    RemoveEachDrops(t, o, ids, gone);
    assert ProductSources(DropSources(t, gone), o, key) == {};
    DropNone(DropSources(t, gone));
  }

  /** Deleting a job that was just created restores every table. */
  lemma DeleteUndoesCreate(t: Tables, op: Op)
    requires LinksOwned(t) && op.CreateJob? && Apply(t, op).1.Linked?
    ensures Apply(Apply(t, op).0, Op.DeleteJob(op.owner, op.id)) == (t, Ok)
  {
    LinkAllMeaning(t.sources, t.links, op.owner, op.id, op.linked);
    var v := Apply(Apply(t, op).0, Op.DeleteJob(op.owner, op.id)).0;
    assert v.jobs == t.jobs;
    assert v.links == t.links;
  }

  /** Unlinking a source that was just linked restores every table. */
  lemma UnlinkUndoesLink(t: Tables, o: string, id: string, s: string)
    requires Apply(t, Op.AddJobSource(o, id, s)).1 == Flag(true)
    ensures Apply(Apply(t, Op.AddJobSource(o, id, s)).0, Op.RemoveJobSource(o, id, s)) == (t, Ok)
  {
    LinkOne(t.sources, t.links, o, id, s);
    var u := Apply(t, Op.AddJobSource(o, id, s)).0;
    assert u.links == t.links[LinkKey(id, s) := o] && LinkKey(id, s) !in t.links;
    assert Apply(u, Op.RemoveJobSource(o, id, s)).0.links == t.links;
  }

  /** An edit of a job is undone by editing it back: the old name cannot have been lost to another of
      the owner's jobs meanwhile. */
  lemma UpdateCanBeReverted(t: Tables, o: string, id: string, title: string, settings: JobSettings)
    requires Integrity(t) && Apply(t, Op.UpdateJob(o, id, title, settings)).1.Holds?
    ensures var u := Apply(t, Op.UpdateJob(o, id, title, settings)).0;
            Apply(u, Op.UpdateJob(o, id, t.jobs[id].name, t.jobs[id].settings))
              == (t, Holds(LinkedSources(t, o, id)))
  {
    var u := Apply(t, Op.UpdateJob(o, id, title, settings)).0;
    var v := Apply(u, Op.UpdateJob(o, id, t.jobs[id].name, t.jobs[id].settings)).0;
    assert !NameTaken(u, o, t.jobs[id].name, Some(id));
    assert v.jobs == t.jobs;
  }

  // ----- Non-interference

  /** The part of the tables that concerns owner `o`: the catalogue and the owner's own rows. */
  function View(t: Tables, o: string): Tables {
    Tables(t.sites, OwnProducts(t.products, o), OwnSources(t.sources, o), OwnJobs(t.jobs, o), OwnLinks(t.links, o))
  }

  function OwnProducts(products: map<ProductKey, string>, o: string): map<ProductKey, string> {
    map k | k in products && k.owner == o :: products[k]
  }

  function OwnSources(sources: Sources, o: string): Sources {
    map k | k in sources && k.owner == o :: sources[k]
  }

  function OwnJobs(jobs: map<string, JobRow>, o: string): map<string, JobRow> {
    map id | id in jobs && jobs[id].owner == o :: jobs[id]
  }

  function OwnLinks(links: Links, o: string): Links {
    map l | l in links && links[l] == o :: links[l]
  }

  /** An operation that owner `o` may notice: its own, and the upserts of the shared catalogue. */
  predicate Concerns(op: Op, o: string) {
    op.AddSite? || op.owner == o
  }

  /** The links of a job of `o`, or of no job, all belong to `o`. */
  ghost predicate JobLinksOwned(t: Tables, o: string, job: string) {
    forall l | l in t.links && l.job == job :: t.links[l] == o
  }

  lemma {:induction false} LinkAllInView(t: Tables, o: string, job: string, ids: seq<string>)
    requires JobLinksOwned(t, o, job)
    ensures var (l, done) := LinkAll(t.sources, t.links, o, job, ids);
            var (lv, donev) := LinkAll(View(t, o).sources, View(t, o).links, o, job, ids);
            && done == donev
            && lv == OwnLinks(l, o)
            && (forall k | k in l && k.job == job :: l[k] == o)
  {
    if ids != [] {
      LinkAllInView(t, o, job, ids[..|ids| - 1]);
    }
  }

  lemma DropSourcesInView(t: Tables, o: string, gone: set<SourceKey>)
    requires forall k | k in gone :: k.owner == o
    ensures View(DropSources(t, gone), o) == DropSources(View(t, o), gone)
  {
    var (a, b) := (View(DropSources(t, gone), o), DropSources(View(t, o), gone));
    assert a.sources == b.sources;
    assert a.links == b.links;
  }

  lemma NameTakenInView(t: Tables, o: string, name: string, except: Option<string>)
    ensures NameTaken(View(t, o), o, name, except) <==> NameTaken(t, o, name, except)
  {
    if NameTaken(t, o, name, except) {
      var id :| id in t.jobs && t.jobs[id].owner == o && t.jobs[id].name == name && except != Some(id);
      assert id in View(t, o).jobs;
    }
  }

  lemma AddSourceInView(t: Tables, o: string, id: string, s: Source)
    ensures var op := AddSource(o, id, s);
            View(Apply(t, op).0, o) == Apply(View(t, o), op).0 && Apply(t, op).1 == Apply(View(t, o), op).1
  {
    var v, k := View(t, o), SourceKey(o, id);
    if UrlTaken(t, o, s) {
      var k :| k in t.sources && k.owner == o && t.sources[k] == s;
      assert k in v.sources && UrlTaken(v, o, s);
    }
    assert UrlTaken(v, o, s) ==> UrlTaken(t, o, s);
    assert OwnSources(t.sources[k := s], o) == v.sources[k := s];
  }

  lemma RemoveProductInView(t: Tables, o: string, key: string)
    ensures var op := RemoveProduct(o, key);
            View(Apply(t, op).0, o) == Apply(View(t, o), op).0 && Apply(t, op).1 == Apply(View(t, o), op).1
  {
    var gone, k := ProductSources(t, o, key), ProductKey(o, key);
    assert ProductSources(View(t, o), o, key) == gone;
    DropSourcesInView(t, o, gone);
    if k in t.products {
      var u := DropSources(t, gone);
      assert OwnProducts(t.products - {k}, o) == OwnProducts(t.products, o) - {k};
      assert View(u.(products := u.products - {k}), o) == View(u, o).(products := OwnProducts(t.products, o) - {k});
    }
  }

  lemma CreateJobInView(t: Tables, o: string, op: Op, issuer: string -> string)
    requires op.CreateJob? && op.owner == o && LinksOwned(t) && JobsIssued(t, issuer) && issuer(op.id) == o
    ensures View(Apply(t, op).0, o) == Apply(View(t, o), op).0 && Apply(t, op).1 == Apply(View(t, o), op).1
  {
    NameTakenInView(t, o, op.title, None);
    assert op.id in t.jobs <==> op.id in View(t, o).jobs;
    if op.id !in t.jobs {
      LinkAllInView(t, o, op.id, op.linked);
      var row := JobRow(o, op.title, op.settings, op.createdAt);
      assert OwnJobs(t.jobs[op.id := row], o) == OwnJobs(t.jobs, o)[op.id := row];
    }
  }

  lemma UpdateJobInView(t: Tables, o: string, op: Op)
    requires op.UpdateJob? && op.owner == o
    ensures View(Apply(t, op).0, o) == Apply(View(t, o), op).0 && Apply(t, op).1 == Apply(View(t, o), op).1
  {
    NameTakenInView(t, o, op.title, Some(op.id));
    assert LinkedSources(View(t, o), o, op.id) == LinkedSources(t, o, op.id);
    if Owns(t, o, op.id) {
      var row := t.jobs[op.id].(name := op.title, settings := op.settings);
      assert OwnJobs(t.jobs[op.id := row], o) == OwnJobs(t.jobs, o)[op.id := row];
    }
  }

  lemma DeleteJobInView(t: Tables, o: string, id: string)
    ensures var op := DeleteJob(o, id);
            View(Apply(t, op).0, o) == Apply(View(t, o), op).0 && Apply(t, op).1 == Apply(View(t, o), op).1
  {
    assert Owns(View(t, o), o, id) <==> Owns(t, o, id);
    if Owns(t, o, id) {
      assert OwnJobs(t.jobs - {id}, o) == OwnJobs(t.jobs, o) - {id};
      assert OwnLinks(Unlink(t.links, id), o) == Unlink(OwnLinks(t.links, o), id);
    }
  }

  lemma AddJobSourceInView(t: Tables, o: string, id: string, s: string)
    requires LinksOwned(t)
    ensures var op := AddJobSource(o, id, s);
            View(Apply(t, op).0, o) == Apply(View(t, o), op).0 && Apply(t, op).1 == Apply(View(t, o), op).1
  {
    if Owns(t, o, id) {
      LinkAllInView(t, o, id, [s]);
    }
  }

  lemma RemoveJobSourceInView(t: Tables, o: string, id: string, s: string)
    ensures var op := RemoveJobSource(o, id, s);
            View(Apply(t, op).0, o) == Apply(View(t, o), op).0 && Apply(t, op).1 == Apply(View(t, o), op).1
  {
    var op := RemoveJobSource(o, id, s);
    assert OwnLinks(Apply(t, op).0.links, o) == Apply(View(t, o), op).0.links;
  }

  /** An owner's operation reads and writes only what the owner's view holds. */
  lemma OwnOpInView(t: Tables, o: string, op: Op, issuer: string -> string)
    requires LinksOwned(t) && JobsIssued(t, issuer) && Issued(op, issuer) && Concerns(op, o)
    ensures View(Apply(t, op).0, o) == Apply(View(t, o), op).0
    ensures Apply(t, op).1 == Apply(View(t, o), op).1
  {
    match op {
      case AddSite(_, _) =>
      case AddProduct(_, key, title) =>
        var k := ProductKey(o, key);
        assert OwnProducts(t.products[k := title], o) == OwnProducts(t.products, o)[k := title];
      case AddSource(_, id, s) => AddSourceInView(t, o, id, s);
      case RemoveSource(_, id) => DropSourcesInView(t, o, {SourceKey(o, id)});
      case RemoveProduct(_, key) => RemoveProductInView(t, o, key);
      case CreateJob(_, _, _, _, _, _) => CreateJobInView(t, o, op, issuer);
      case UpdateJob(_, _, _, _) => UpdateJobInView(t, o, op);
      case DeleteJob(_, id) => DeleteJobInView(t, o, id);
      case AddJobSource(_, id, s) => AddJobSourceInView(t, o, id, s);
      case RemoveJobSource(_, id, s) => RemoveJobSourceInView(t, o, id, s);
    }
  }

  lemma ForeignDropInvisible(t: Tables, o: string, gone: set<SourceKey>)
    requires forall k | k in gone :: k.owner != o
    ensures View(DropSources(t, gone), o) == View(t, o)
  {
    var u := DropSources(t, gone);
    assert OwnSources(u.sources, o) == OwnSources(t.sources, o);
    assert OwnLinks(u.links, o) == OwnLinks(t.links, o);
  }

  lemma ForeignLinkInvisible(t: Tables, o: string, p: string, job: string, ids: seq<string>)
    requires p != o
    ensures OwnLinks(LinkAll(t.sources, t.links, p, job, ids).0, o) == OwnLinks(t.links, o)
  {
    LinkAllMeaning(t.sources, t.links, p, job, ids);
  }

  lemma ForeignJobInvisible(jobs: map<string, JobRow>, o: string, id: string, row: JobRow)
    requires row.owner != o && (id in jobs ==> jobs[id].owner != o)
    ensures OwnJobs(jobs[id := row], o) == OwnJobs(jobs, o) == OwnJobs(jobs - {id}, o)
  {
  }

  lemma ForeignCatalogueOpInvisible(t: Tables, o: string, op: Op)
    requires !Concerns(op, o) && (op.AddProduct? || op.AddSource? || op.RemoveSource? || op.RemoveProduct?)
    ensures View(Apply(t, op).0, o) == View(t, o)
  {
    match op {
      case AddProduct(p, key, title) =>
        assert OwnProducts(t.products[ProductKey(p, key) := title], o) == OwnProducts(t.products, o);
      case AddSource(p, id, s) =>
        assert OwnSources(t.sources[SourceKey(p, id) := s], o) == OwnSources(t.sources, o);
      case RemoveSource(p, id) => ForeignDropInvisible(t, o, {SourceKey(p, id)});
      case RemoveProduct(p, key) =>
        ForeignDropInvisible(t, o, ProductSources(t, p, key));
        assert OwnProducts(t.products - {ProductKey(p, key)}, o) == OwnProducts(t.products, o);
    }
  }

  lemma ForeignDeleteInvisible(t: Tables, o: string, p: string, id: string)
    requires LinksOwned(t) && p != o
    ensures View(Apply(t, DeleteJob(p, id)).0, o) == View(t, o)
  {
    if Owns(t, p, id) {
      ForeignJobInvisible(t.jobs, o, id, t.jobs[id]);
      assert OwnLinks(Unlink(t.links, id), o) == OwnLinks(t.links, o);
    }
  }

  lemma ForeignJobOpInvisible(t: Tables, o: string, op: Op)
    requires !Concerns(op, o) && (op.CreateJob? || op.UpdateJob?)
    ensures View(Apply(t, op).0, o) == View(t, o)
  {
    if op.CreateJob? {
      if op.id !in t.jobs {
        ForeignJobInvisible(t.jobs, o, op.id, JobRow(op.owner, op.title, op.settings, op.createdAt));
      }
      ForeignLinkInvisible(t, o, op.owner, op.id, op.linked);
    } else if Owns(t, op.owner, op.id) {
      ForeignJobInvisible(t.jobs, o, op.id, t.jobs[op.id].(name := op.title, settings := op.settings));
    }
  }

  /** Another owner's operation leaves the view unchanged. */
  lemma ForeignOpInvisible(t: Tables, o: string, op: Op)
    requires LinksOwned(t) && !Concerns(op, o)
    ensures View(Apply(t, op).0, o) == View(t, o)
  {
    if op.CreateJob? || op.UpdateJob? {
      ForeignJobOpInvisible(t, o, op);
    } else if op.DeleteJob? {
      ForeignDeleteInvisible(t, o, op.owner, op.id);
    } else if op.AddJobSource? {
      ForeignLinkInvisible(t, o, op.owner, op.id, [op.sourceId]);
    } else if op.RemoveJobSource? {
      assert OwnLinks(Apply(t, op).0.links, o) == OwnLinks(t.links, o);
    } else {
      ForeignCatalogueOpInvisible(t, o, op);
    }
  }

  function Run(t: Tables, ops: seq<Op>): Tables
    decreases |ops|
  {
    if ops == [] then t else Run(Apply(t, ops[0]).0, ops[1..])
  }

  /** The responses to the operations that concern `o`. */
  function Responses(t: Tables, ops: seq<Op>, o: string): seq<Response>
    decreases |ops|
  {
    if ops == [] then []
    else (if Concerns(ops[0], o) then [Apply(t, ops[0]).1] else []) + Responses(Apply(t, ops[0]).0, ops[1..], o)
  }

  function Only(ops: seq<Op>, o: string): seq<Op> {
    if ops == [] then [] else (if Concerns(ops[0], o) then [ops[0]] else []) + Only(ops[1..], o)
  }

  /** Given job ids that no two owners share, an owner's rows after any trace, and every response
      the owner got, are those of replaying only that owner's operations and the catalogue upserts
      on the owner's own rows. Links always join rows of one owner. */
  lemma {:induction false} NonInterference(t: Tables, ops: seq<Op>, o: string, issuer: string -> string)
    requires LinksOwned(t) && JobsIssued(t, issuer)
    requires forall op | op in ops :: Issued(op, issuer)
    ensures View(Run(t, ops), o) == Run(View(t, o), Only(ops, o))
    ensures Responses(t, ops, o) == Responses(View(t, o), Only(ops, o), o)
    ensures LinksOwned(Run(t, ops))
    ensures Integrity(t) ==> Integrity(Run(t, ops))
    decreases |ops|
  {
    if ops != [] {
      var op, rest := ops[0], ops[1..];
      var u := Apply(t, op).0;
      ApplyKeepsLinks(t, op);
      if Integrity(t) { ApplyKeepsIntegrity(t, op); }
      ApplyKeepsIssued(t, op, issuer);
      NonInterference(u, rest, o, issuer);
      if Concerns(op, o) {
        OwnOpInView(t, o, op, issuer);
        assert Only(ops, o)[1..] == Only(rest, o);
      } else {
        ForeignOpInvisible(t, o, op);
        assert Only(ops, o) == Only(rest, o);
      }
    }
  }

  /** The condition on job ids is exact: a creation is answered from the owner's own rows if and only
      if the id is not another owner's, or the name is already taken by the owner. */
  lemma JobIdCollision(t: Tables, o: string, id: string, title: string, settings: JobSettings,
                       createdAt: string, ids: seq<string>)
    requires LinksOwned(t)
    ensures var op := CreateJob(o, id, title, settings, createdAt, ids);
            Apply(t, op).1 == Apply(View(t, o), op).1 <==>
            (id in t.jobs ==> t.jobs[id].owner == o) || NameTaken(t, o, title, None)
  {
    var v := View(t, o);
    NameTakenInView(t, o, title, None);
    if id !in t.jobs {
      LinkAllInView(t, o, id, ids);
    }
  }
}
