/** The mock data-access layer: an in-memory store of users, locations and
    assets with list, lookup, create, update and delete operations, the asset
    code normalisation, the referential-integrity check on location delete
    and the mock login. Latency simulation is not modelled; every operation
    is a synchronous call. */
module Api {
  import opened Wrappers
  import opened Types
  import opened ArrayOps
  import opened Text

  /** The failures the access layer throws. Each failed operation leaves the
      store as it was. */
  datatype ApiError =
    | InvalidCredentials   // one message for unknown login, inactive user and wrong password
    | AssetNotFound
    | LocationNotFound
    | UserNotFound
    | LocationInUse        // a location still referenced by an asset cannot be removed

  /** The one password every account accepts. */
  const Password: string := "password"

  const SeedUsers: seq<User> := [
    User(1, "Admin User", "admin", "admin@example.com", 1, None, "2023-01-01"),
    User(2, "Inactive User", "inactive", "inactive@example.com", 0, None, "2023-01-02"),
    User(3, "John Doe", "johndoe", "john.doe@example.com", 1, None, "2023-02-10")
  ]

  const SeedLocations: seq<Location> := [
    Location(1, "Almoxarifado", 1),
    Location(2, "Sala 101", 1),
    Location(3, "Depósito", 1),
    Location(4, "Escritório Antigo", 0)
  ]

  const SeedAssets: seq<Asset> := [
    Asset(1, "00055789", "Notebook Dell Latitude 5420", "2023-05-20", None, Some("Dell Inc."), 2, Ativo, 1, None),
    Asset(2, "00055790", "Cadeira de Escritório Ergonômica", "2022-11-15", None, Some("Staples"), 2, Ativo, 1, None),
    Asset(3, "00055791", "Monitor LG Ultrawide 29\"", "2023-02-10", None, Some("LG Electronics"), 1, Ativo, 0, None),
    Asset(4, "00055792", "Impressora HP LaserJet Pro", "2021-08-01", None, Some("HP"), 3, Inativo, 0, None),
    Asset(5, "00055793", "Projetor Epson PowerLite", "2020-01-30", None, Some("Epson"), 3, Baixado, 1, None)
  ]

  // The surrogate key of each record type.
  function AssetCod(a: Asset): int { a.cod }
  function LocationCode(l: Location): int { l.cod_local }
  function UserId(u: User): int { u.id }

  /** The key for a new record: one more than the largest existing key, and
      1 in an empty collection. */
  function NextKey(keys: seq<int>): (k: int)
    ensures k >= 1
    ensures forall i :: 0 <= i < |keys| ==> keys[i] < k
    ensures k == 1 || k - 1 in keys
  {
    MaxOrZero(keys) + 1
  }

  /** Two creations in a row receive consecutive keys. */
  lemma NextKeyAfterCreate(keys: seq<int>)
    ensures NextKey(keys + [NextKey(keys)]) == NextKey(keys) + 1
  {
    MaxOrZeroAppend(keys, NextKey(keys));
  }

  /** The stored form of an asset: its code zero-padded to 8 characters. */
  function Normalized(a: Asset): (n: Asset)
    ensures n.codigo_bem == PadAssetCode(a.codigo_bem)
    ensures |n.codigo_bem| >= AssetCodeLength
    ensures n.(codigo_bem := a.codigo_bem) == a
  {
    a.(codigo_bem := PadAssetCode(a.codigo_bem))
  }

  function ActiveWithLogin(login: string): User -> bool
  {
    (u: User) => u.login == login && u.situacao == 1
  }

  /** Login: the first active user with the given login handle, provided the
      password is the fixed mock password; every failure is the same error. */
  function Authenticate(users: seq<User>, login: string, pass: string): (r: Result<User, ApiError>)
    ensures r.Ok? <==> pass == Password &&
                       exists i :: 0 <= i < |users| && users[i].login == login && users[i].situacao == 1
    ensures r.Ok? ==> exists i :: 0 <= i < |users| && users[i] == r.value &&
                                  r.value.login == login && r.value.situacao == 1 &&
                                  forall j :: 0 <= j < i ==> !(users[j].login == login && users[j].situacao == 1)
    ensures r.Err? ==> r.error == InvalidCredentials
  {
    match Find(users, ActiveWithLogin(login))
    case Some(u) => if pass == Password then Ok(u) else Err(InvalidCredentials)
    case None => Err(InvalidCredentials)
  }

  /** With the seeded accounts, the administrator logs in, and a wrong
      password or an inactive account fails with the same error. */
  lemma SeedLoginExamples()
    ensures Authenticate(SeedUsers, "admin", "password") == Ok(SeedUsers[0])
    ensures Authenticate(SeedUsers, "admin", "wrong") == Err(InvalidCredentials)
    ensures Authenticate(SeedUsers, "inactive", "password") == Err(InvalidCredentials)
  {
  }

  function HasCode(code: string): Asset -> bool
  {
    (a: Asset) => a.codigo_bem == code
  }

  /** Lookup by external code: the input is padded first, then the first
      asset whose stored code equals it is returned. */
  function AssetByCode(assets: seq<Asset>, code: string): (r: Option<Asset>)
    ensures r.None? <==> forall i :: 0 <= i < |assets| ==> assets[i].codigo_bem != PadAssetCode(code)
    ensures r.Some? ==> exists i :: 0 <= i < |assets| && assets[i] == r.value &&
                                    r.value.codigo_bem == PadAssetCode(code) &&
                                    forall j :: 0 <= j < i ==> assets[j].codigo_bem != PadAssetCode(code)
  {
    Find(assets, HasCode(PadAssetCode(code)))
  }

  /** A short code finds the asset stored under its padded form. */
  lemma ShortCodeLookup(assets: seq<Asset>, k: nat)
    requires k < |assets| && assets[k].codigo_bem == "00000789"
    ensures AssetByCode(assets, "789").Some?
    ensures AssetByCode(assets, "789").value.codigo_bem == "00000789"
  {
    PadExample();
  }

  // The key tests `findIndex` and `filter` use in the update and delete operations.
  function AssetCodIs(cod: int): Asset -> bool { (a: Asset) => a.cod == cod }
  function AssetCodIsNot(cod: int): Asset -> bool { (a: Asset) => a.cod != cod }
  function LocationCodeIs(code: int): Location -> bool { (l: Location) => l.cod_local == code }
  function LocationCodeIsNot(code: int): Location -> bool { (l: Location) => l.cod_local != code }
  function UserIdIs(id: int): User -> bool { (u: User) => u.id == id }

  /** `some` asset is placed at location `code`. */
  predicate InUse(assets: seq<Asset>, code: int)
  {
    exists i :: 0 <= i < |assets| && assets[i].local_fisico == code
  }

  /** Every asset's location code names an existing location. The store
      never enforces this on create or update; only location delete keeps it. */
  ghost predicate ReferencesResolve(assets: seq<Asset>, locations: seq<Location>)
  {
    forall i :: 0 <= i < |assets| ==> Resolves(locations, assets[i].local_fisico)
  }

  /** Some location has this code. */
  ghost predicate Resolves(locations: seq<Location>, code: int)
  {
    exists j :: 0 <= j < |locations| && locations[j].cod_local == code
  }

  /** The locations left by a successful delete: all others, in order. */
  function RemoveLocation(locations: seq<Location>, code: int): (r: seq<Location>)
    ensures forall l :: l in r <==> l in locations && l.cod_local != code
    ensures IsSubsequence(r, locations)
  {
    FilterIsSubsequence(locations, LocationCodeIsNot(code));
    Filter(locations, LocationCodeIsNot(code))
  }

  /** The assets left by a delete: all others, in order. */
  function RemoveAsset(assets: seq<Asset>, cod: int): (r: seq<Asset>)
    ensures forall a :: a in r <==> a in assets && a.cod != cod
    ensures IsSubsequence(r, assets)
    ensures (forall i :: 0 <= i < |assets| ==> assets[i].cod != cod) ==> r == assets
  {
    FilterIsSubsequence(assets, AssetCodIsNot(cod));
    AbsentKeyKeepsAll(assets, cod);
    Filter(assets, AssetCodIsNot(cod))
  }

  /** Filtering out a key that no asset has keeps the whole list. */
  lemma AbsentKeyKeepsAll(assets: seq<Asset>, cod: int)
    ensures (forall i :: 0 <= i < |assets| ==> assets[i].cod != cod) ==>
              Filter(assets, AssetCodIsNot(cod)) == assets
  {
    if forall i :: 0 <= i < |assets| ==> assets[i].cod != cod {
      FilterKeepsAll(assets, AssetCodIsNot(cod));
    }
  }

  /** With unique location codes a delete removes at most one location, and
      exactly one when some location has the code. */
  lemma {:induction false} RemoveUniqueLocation(locations: seq<Location>, code: int)
    requires NoDuplicates(Map(locations, LocationCode))
    ensures |RemoveLocation(locations, code)| >= |locations| - 1
    ensures (exists i :: 0 <= i < |locations| && locations[i].cod_local == code) ==>
              |RemoveLocation(locations, code)| == |locations| - 1
  {
    if locations != [] {
      var tail := locations[1..];
      var keys := Map(locations, LocationCode);
      assert Map(tail, LocationCode) == keys[1..];
      if locations[0].cod_local == code {
        forall i | 0 <= i < |tail|
          ensures LocationCodeIsNot(code)(tail[i])
        {
          assert keys[0] != keys[i + 1];
        }
        FilterKeepsAll(tail, LocationCodeIsNot(code));
      } else {
        RemoveUniqueLocation(tail, code);
        if exists i :: 0 <= i < |locations| && locations[i].cod_local == code {
          var i :| 0 <= i < |locations| && locations[i].cod_local == code;
          assert tail[i - 1].cod_local == code;
        }
      }
    }
  }

  /** With unique asset keys the first asset with a key is the only one, so
      an update that finds it leaves exactly one asset with that key: the
      stored update. */
  lemma FirstMatchIsOnly(assets: seq<Asset>, updated: Asset)
    requires NoDuplicates(Map(assets, AssetCod))
    requires FindIndex(assets, AssetCodIs(updated.cod)).Some?
    ensures var i := FindIndex(assets, AssetCodIs(updated.cod)).value;
            forall j :: 0 <= j < |assets| && j != i ==> assets[j].cod != updated.cod
    ensures var i := FindIndex(assets, AssetCodIs(updated.cod)).value;
            var r := assets[i := Normalized(updated)];
            forall j :: 0 <= j < |r| ==> (r[j].cod == updated.cod <==> j == i)
  {
    var i := FindIndex(assets, AssetCodIs(updated.cod)).value;
    var keys := Map(assets, AssetCod);
    forall j | 0 <= j < |assets| && j != i
      ensures assets[j].cod != updated.cod
    {
      if j < i {
        assert keys[j] != keys[i];
      } else {
        assert keys[i] != keys[j];
      }
    }
  }

  /** Removing an unreferenced location keeps every asset's reference valid. */
  lemma DeleteLocationKeepsReferences(assets: seq<Asset>, locations: seq<Location>, code: int)
    requires ReferencesResolve(assets, locations)
    requires !InUse(assets, code)
    ensures ReferencesResolve(assets, RemoveLocation(locations, code))
  {
  }

  /** Creating an asset that names an unknown location is accepted and
      leaves a dangling reference: the foreign key is a convention only. */
  lemma CreateMayDangle(assets: seq<Asset>, locations: seq<Location>, a: Asset)
    requires forall j :: 0 <= j < |locations| ==> locations[j].cod_local != a.local_fisico
    ensures !ReferencesResolve(assets + [Normalized(a)], locations)
  {
    var all := assets + [Normalized(a)];
    assert all[|assets|].local_fisico == a.local_fisico;
  }

  /** The in-memory store. The three collections play the role of the
      module-level arrays; every operation reads or replaces them. */
  class Store {
    var assets: seq<Asset>
    var locations: seq<Location>
    var users: seq<User>

    /** Keys are unique within each collection and every stored asset code
        is in padded form. The seed satisfies it and every operation keeps it. */
    ghost predicate Valid(): (ok: bool)
      reads this
      ensures ok ==> forall i, j :: 0 <= i < j < |assets| ==> assets[i].cod != assets[j].cod
      ensures ok ==> forall i, j :: 0 <= i < j < |locations| ==> locations[i].cod_local != locations[j].cod_local
      ensures ok ==> forall i, j :: 0 <= i < j < |users| ==> users[i].id != users[j].id
      ensures ok ==> forall i :: 0 <= i < |assets| ==> |assets[i].codigo_bem| >= AssetCodeLength
    {
      NoDuplicates(Map(assets, AssetCod)) &&
      NoDuplicates(Map(locations, LocationCode)) &&
      NoDuplicates(Map(users, UserId)) &&
      forall i :: 0 <= i < |assets| ==> |assets[i].codigo_bem| >= AssetCodeLength
    }

    /** The store as seeded at startup. */
    constructor ()
      ensures assets == SeedAssets && locations == SeedLocations && users == SeedUsers
      ensures Valid()
    {
      assets := SeedAssets;
      locations := SeedLocations;
      users := SeedUsers;
    }

    method Login(login: string, pass: string) returns (r: Result<User, ApiError>)
      ensures r == Authenticate(users, login, pass)
    {
      var found := Find(users, ActiveWithLogin(login));
      if found.Some? && pass == Password {
        r := Ok(found.value);
      } else {
        r := Err(InvalidCredentials);
      }
    }

    // ASSETS

    /** A copy of all assets. */
    method GetAssets() returns (r: seq<Asset>)
      ensures r == assets
    {
      r := assets;
    }

    method GetAssetByCode(code: string) returns (r: Option<Asset>)
      ensures r == AssetByCode(assets, code)
    {
      r := Find(assets, HasCode(PadAssetCode(code)));
    }

    /** Appends the asset under a fresh key, with its code padded. */
    method AddAsset(asset: Asset) returns (r: Asset)
      modifies this
      ensures r == Normalized(asset.(cod := NextKey(Map(old(assets), AssetCod))))
      ensures forall i :: 0 <= i < |old(assets)| ==> old(assets)[i].cod < r.cod
      ensures assets == old(assets) + [r]
      ensures locations == old(locations) && users == old(users)
      ensures old(Valid()) ==> Valid()
    {
      r := Normalized(asset.(cod := NextKey(Map(assets, AssetCod))));
      AppendFreshKey(assets, AssetCod, r);
      assets := assets + [r];
    }

    /** Replaces the first asset with the same key, storing the code padded. */
    method UpdateAsset(updated: Asset) returns (r: Result<Asset, ApiError>)
      modifies this
      ensures match FindIndex(old(assets), AssetCodIs(updated.cod))
        case None => r == Err(AssetNotFound) && assets == old(assets)
        case Some(i) => r == Ok(Normalized(updated)) && assets == old(assets)[i := Normalized(updated)]
      ensures locations == old(locations) && users == old(users)
      ensures old(Valid()) ==> Valid()
    {
      var index := FindIndex(assets, AssetCodIs(updated.cod));
      if index.None? {
        r := Err(AssetNotFound);
      } else {
        var stored := updated.(codigo_bem := PadAssetCode(updated.codigo_bem));
        assets := assets[index.value := stored];
        r := Ok(stored);
        ReplaceSameKey(old(assets), AssetCod, index.value, stored);
      }
    }

    /** Removes every asset with this key; an absent key changes nothing. */
    method DeleteAsset(cod: int)
      modifies this
      ensures assets == RemoveAsset(old(assets), cod)
      ensures locations == old(locations) && users == old(users)
      ensures old(Valid()) ==> Valid()
    {
      assets := Filter(assets, AssetCodIsNot(cod));
      if NoDuplicates(Map(old(assets), AssetCod)) {
        FilterKeepsKeysUnique(old(assets), AssetCodIsNot(cod), AssetCod);
      }
    }

    // LOCATIONS

    /** A copy of all locations. */
    method GetLocations() returns (r: seq<Location>)
      ensures r == locations
    {
      r := locations;
    }

    /** Appends the location under a fresh key. */
    method AddLocation(location: Location) returns (r: Location)
      modifies this
      ensures r == location.(cod_local := NextKey(Map(old(locations), LocationCode)))
      ensures forall i :: 0 <= i < |old(locations)| ==> old(locations)[i].cod_local < r.cod_local
      ensures locations == old(locations) + [r]
      ensures assets == old(assets) && users == old(users)
      ensures old(Valid()) ==> Valid()
    {
      r := location.(cod_local := NextKey(Map(locations, LocationCode)));
      locations := locations + [r];
      AppendFreshKey(old(locations), LocationCode, r);
    }

    /** Replaces the first location with the same key, wholesale. */
    method UpdateLocation(updated: Location) returns (r: Result<Location, ApiError>)
      modifies this
      ensures match FindIndex(old(locations), LocationCodeIs(updated.cod_local))
        case None => r == Err(LocationNotFound) && locations == old(locations)
        case Some(i) => r == Ok(updated) && locations == old(locations)[i := updated]
      ensures assets == old(assets) && users == old(users)
      ensures old(Valid()) ==> Valid()
    {
      var index := FindIndex(locations, LocationCodeIs(updated.cod_local));
      if index.None? {
        r := Err(LocationNotFound);
      } else {
        locations := locations[index.value := updated];
        r := Ok(updated);
        ReplaceSameKey(old(locations), LocationCode, index.value, updated);
      }
    }

    /** Refuses while some asset is placed at the location; otherwise removes
        every location with that code. */
    method DeleteLocation(code: int) returns (r: Result<(), ApiError>)
      modifies this
      ensures InUse(old(assets), code) ==> r == Err(LocationInUse) && locations == old(locations)
      ensures !InUse(old(assets), code) ==> r == Ok(()) && locations == RemoveLocation(old(locations), code)
      ensures assets == old(assets) && users == old(users)
      ensures old(Valid()) ==> Valid()
    {
      if exists i :: 0 <= i < |assets| && assets[i].local_fisico == code {
        r := Err(LocationInUse);
      } else {
        locations := Filter(locations, LocationCodeIsNot(code));
        r := Ok(());
        if NoDuplicates(Map(old(locations), LocationCode)) {
          FilterKeepsKeysUnique(old(locations), LocationCodeIsNot(code), LocationCode);
        }
      }
    }

    // USERS

    /** A copy of all users. */
    method GetUsers() returns (r: seq<User>)
      ensures r == users
    {
      r := users;
    }

    /** Appends the user under a fresh id, registered on `today`. */
    method AddUser(user: User, today: string) returns (r: User)
      modifies this
      ensures r == user.(id := NextKey(Map(old(users), UserId)), data_cadastro := today)
      ensures forall i :: 0 <= i < |old(users)| ==> old(users)[i].id < r.id
      ensures users == old(users) + [r]
      ensures assets == old(assets) && locations == old(locations)
      ensures old(Valid()) ==> Valid()
    {
      r := user.(id := NextKey(Map(users, UserId)), data_cadastro := today);
      users := users + [r];
      AppendFreshKey(old(users), UserId, r);
    }

    /** Replaces the first user with the same id, wholesale. */
    method UpdateUser(updated: User) returns (r: Result<User, ApiError>)
      modifies this
      ensures match FindIndex(old(users), UserIdIs(updated.id))
        case None => r == Err(UserNotFound) && users == old(users)
        case Some(i) => r == Ok(updated) && users == old(users)[i := updated]
      ensures assets == old(assets) && locations == old(locations)
      ensures old(Valid()) ==> Valid()
    {
      var index := FindIndex(users, UserIdIs(updated.id));
      if index.None? {
        r := Err(UserNotFound);
      } else {
        users := users[index.value := updated];
        r := Ok(updated);
        ReplaceSameKey(old(users), UserId, index.value, updated);
      }
    }
  }

  /** Appending a record whose key exceeds every existing key keeps keys unique. */
  lemma AppendFreshKey<T>(s: seq<T>, key: T -> int, x: T)
    requires forall i :: 0 <= i < |s| ==> key(s[i]) < key(x)
    ensures NoDuplicates(Map(s, key)) ==> NoDuplicates(Map(s + [x], key))
  {
    assert Map(s + [x], key) == Map(s, key) + [key(x)];
  }

  /** Overwriting a record with one of the same key leaves the keys as they were. */
  lemma ReplaceSameKey<T>(s: seq<T>, key: T -> int, i: nat, x: T)
    requires i < |s| && key(s[i]) == key(x)
    ensures Map(s[i := x], key) == Map(s, key)
  {
  }
}
