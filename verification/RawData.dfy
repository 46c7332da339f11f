/**
 Decoded source payloads of one raw revision.

 A JSON object is a Dict: entries in insertion order with distinct keys. The content hash is
 modelled as an injective constructor over the canonical form, which forgets the order of keys
 (and never includes the lineup file), so two payloads have equal hashes exactly when their
 hashed resources agree up to key order.
 */
module RawData {
  import opened Common

  /** A scalar field of a record; a missing key reads as Null, a float or boolean as its text. */
  datatype Scalar = Null | Number(n: int) | Text(s: string)

  predicate DistinctKeys<R>(entries: seq<(string, R)>) {
    forall i, j :: 0 <= i < j < |entries| ==> entries[i].0 != entries[j].0
  }

  type Dict<R> = d: seq<(string, R)> | DistinctKeys(d) witness []

  function AsMap<R>(d: Dict<R>): map<string, R> {
    map k | k in (set i | 0 <= i < |d| :: d[i].0) :: ValueAt(d, k)
  }

  function ValueAt<R>(d: Dict<R>, key: string): R
    requires exists i :: 0 <= i < |d| && d[i].0 == key
  {
    var i :| 0 <= i < |d| && d[i].0 == key;
    d[i].1
  }

  datatype VersionEntry = VersionEntry(mode: string, name: string, newest: bool, version: string, season: string)

  datatype BaseTraitRecord = BaseTraitRecord(id: Scalar, name: Scalar, numList: Scalar, maxLevel: Scalar, mapId: Scalar)

  /** `numList` and `values` are None when the key is absent, which differs from a null value. */
  datatype TierRecord = TierRecord(
    id: Scalar, checkId: Scalar, kindCode: Scalar, num: Scalar, numList: Option<Scalar>, values: Option<Scalar>,
    maxLevel: Scalar, level: Scalar, desc: Scalar, realDesc: Scalar)

  /** `numbers` are the optional integer fields: price, map, health, attack, armor, resist, range and both manas. */
  datatype HeroRecord = HeroRecord(
    id: Scalar, name: Scalar, classes: Scalar, species: Scalar, numbers: seq<Scalar>, attackSpeed: Scalar)

  datatype EquipmentRecord = EquipmentRecord(id: Scalar, name: Scalar, synthesis1: Scalar, synthesis2: Scalar)

  datatype AugmentRecord = AugmentRecord(id: Scalar, name: Scalar, level: Scalar)

  /** Unlike every other record, an adventure's id need not be its object key. */
  datatype AdventureRecord = AdventureRecord(adventureId: Scalar, title: Scalar, price: Scalar)

  datatype GalaxyRecord = GalaxyRecord(id: Scalar, name: Scalar)

  datatype ResourceFile<R> = ResourceFile(version: string, season: string, setId: string, data: Dict<R>)

  datatype Payloads = Payloads(
    config: seq<VersionEntry>, chess: ResourceFile<HeroRecord>, race: ResourceFile<BaseTraitRecord>,
    job: ResourceFile<BaseTraitRecord>, tiers: ResourceFile<TierRecord>, equip: ResourceFile<EquipmentRecord>,
    hex: ResourceFile<AugmentRecord>, adventure: ResourceFile<AdventureRecord>, galaxy: ResourceFile<GalaxyRecord>,
    lineup: string)

  datatype CanonicalFile<R> = CanonicalFile(version: string, season: string, setId: string, data: map<string, R>)

  datatype ContentHash = ContentHash(
    config: seq<VersionEntry>, chess: CanonicalFile<HeroRecord>, race: CanonicalFile<BaseTraitRecord>,
    job: CanonicalFile<BaseTraitRecord>, tiers: CanonicalFile<TierRecord>, equip: CanonicalFile<EquipmentRecord>,
    hex: CanonicalFile<AugmentRecord>, adventure: CanonicalFile<AdventureRecord>, galaxy: CanonicalFile<GalaxyRecord>)

  function Canonical<R>(f: ResourceFile<R>): CanonicalFile<R> {
    CanonicalFile(f.version, f.season, f.setId, AsMap(f.data))
  }

  function HashOf(p: Payloads): ContentHash {
    ContentHash(p.config, Canonical(p.chess), Canonical(p.race), Canonical(p.job), Canonical(p.tiers), Canonical(p.equip),
                Canonical(p.hex), Canonical(p.adventure), Canonical(p.galaxy))
  }

  // ---- What the hash tells apart ---------------------------------------------------------

  /** The files have one version, season and set, and the same records under the same keys, in any order. */
  ghost predicate SameFile<R(!new)>(f: ResourceFile<R>, g: ResourceFile<R>) {
    f.version == g.version && f.season == g.season && f.setId == g.setId
    && forall e: (string, R) :: e in f.data <==> e in g.data
  }

  /** Everything but the lineup file is the same. */
  ghost predicate SameContents(p: Payloads, q: Payloads) {
    && p.config == q.config
    && SameFile(p.chess, q.chess) && SameFile(p.race, q.race) && SameFile(p.job, q.job)
    && SameFile(p.tiers, q.tiers) && SameFile(p.equip, q.equip)
    && SameFile(p.hex, q.hex) && SameFile(p.adventure, q.adventure) && SameFile(p.galaxy, q.galaxy)
  }

  lemma EntryInMap<R>(d: Dict<R>, e: (string, R))
    ensures e in d <==> e.0 in AsMap(d) && AsMap(d)[e.0] == e.1
  {
    if e in d {
      var i :| 0 <= i < |d| && d[i] == e;
      assert d[i].0 == e.0;
    }
    if e.0 in AsMap(d) {
      var i :| 0 <= i < |d| && d[i].0 == e.0;
      assert d[i] == (e.0, d[i].1);
    }
  }

  lemma MapsAgreeIff<R(!new)>(a: Dict<R>, b: Dict<R>)
    ensures AsMap(a) == AsMap(b) <==> forall e: (string, R) :: e in a <==> e in b
  {
    hide AsMap;
    var x, y := AsMap(a), AsMap(b);
    forall e: (string, R)
      ensures e in a <==> e.0 in x && x[e.0] == e.1
      ensures e in b <==> e.0 in y && y[e.0] == e.1
    {
      EntryInMap(a, e);
      EntryInMap(b, e);
    }
    if forall e: (string, R) :: e in a <==> e in b {
      forall k | k in x ensures k in y && y[k] == x[k] { assert (k, x[k]) in a; }
      forall k | k in y ensures k in x && x[k] == y[k] { assert (k, y[k]) in b; }
    }
  }

  lemma CanonicalIff<R(!new)>(f: ResourceFile<R>, g: ResourceFile<R>)
    ensures Canonical(f) == Canonical(g) <==> SameFile(f, g)
  {
    MapsAgreeIff(f.data, g.data);
  }

  /** Two payloads have one hash exactly when they agree in every version, season, set and record. */
  lemma HashesAgreeIff(p: Payloads, q: Payloads)
    ensures HashOf(p) == HashOf(q) <==> SameContents(p, q)
  {
    hide Canonical, SameFile;
    CanonicalIff(p.chess, q.chess);
    CanonicalIff(p.race, q.race);
    CanonicalIff(p.job, q.job);
    CanonicalIff(p.tiers, q.tiers);
    CanonicalIff(p.equip, q.equip);
    CanonicalIff(p.hex, q.hex);
    CanonicalIff(p.adventure, q.adventure);
    CanonicalIff(p.galaxy, q.galaxy);
  }
}
