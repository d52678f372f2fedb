/** The assets page's derived state: the table filter, the locations offered
    by the edit form, the form's required-field check, and the lookup of the
    asset named in the route. */
module AssetsPage {
  import opened Wrappers
  import opened Types
  import opened ArrayOps
  import opened Text
  import Api

  /** The three select filters, each holding the chosen option's value; the
      empty string is the "all" option. */
  datatype Filters = Filters(location: string, status: string, inventoried: string)

  /** An empty location filter allows every asset; otherwise the asset's
      location must equal the parsed filter value. */
  predicate LocationMatches(a: Asset, filter: string): (ok: bool)
    ensures filter == "" ==> ok
    ensures filter == IntToString(a.local_fisico) ==> ok
  {
    ParseIntToString(a.local_fisico);
    filter == "" || ParseInt(filter) == Some(a.local_fisico)
  }

  /** An empty status filter allows every asset; otherwise the asset's
      status string must equal it. */
  predicate StatusMatches(a: Asset, filter: string): (ok: bool)
    ensures filter == "" || filter == StatusName(a.situacao) ==> ok
    ensures ok ==> filter == "" || exists s :: filter == StatusName(s)
  {
    filter == "" || StatusName(a.situacao) == filter
  }

  /** Only the empty string means "any"; "0" selects the assets not
      inventoried. */
  predicate InventoriedMatches(a: Asset, filter: string): (ok: bool)
    ensures filter == "" ==> ok
    ensures ok ==> filter == "" || ParseInt(filter) == Some(0) || ParseInt(filter) == Some(1)
  {
    filter == "" || ParseInt(filter) == Some(a.inventariado as int)
  }

  /** The search term occurs in the description, ignoring case, or in the
      stored code, respecting case. */
  predicate SearchMatches(a: Asset, term: string): (ok: bool)
    ensures term == "" ==> ok
    ensures ok ==> |term| <= |a.descricao| || |term| <= |a.codigo_bem|
  {
    Contains(Lower(a.descricao), Lower(term)) || Contains(a.codigo_bem, term)
  }

  /** All four conditions at once. */
  predicate Matches(a: Asset, f: Filters, term: string): (ok: bool)
    ensures f == Filters("", "", "") && term == "" ==> ok
    ensures ok ==> f.inventoried != "0" || a.inventariado == 0
  {
    LocationMatches(a, f.location) && StatusMatches(a, f.status) &&
    InventoriedMatches(a, f.inventoried) && SearchMatches(a, term)
  }

  function ByLocation(filter: string): Asset -> bool { (a: Asset) => LocationMatches(a, filter) }
  function ByStatus(filter: string): Asset -> bool { (a: Asset) => StatusMatches(a, filter) }
  function ByInventoried(filter: string): Asset -> bool { (a: Asset) => InventoriedMatches(a, filter) }
  function BySearch(term: string): Asset -> bool { (a: Asset) => SearchMatches(a, term) }
  function ByAll(f: Filters, term: string): Asset -> bool { (a: Asset) => Matches(a, f, term) }

  /** The table rows: the four filters applied one after another. */
  function FilteredAssets(assets: seq<Asset>, f: Filters, term: string): (r: seq<Asset>)
    ensures forall a :: a in r <==> a in assets && Matches(a, f, term)
  {
    Filter(Filter(Filter(Filter(assets, ByLocation(f.location)), ByStatus(f.status)),
                  ByInventoried(f.inventoried)),
           BySearch(term))
  }

  /** The chain of filters is one filter by the conjunction, so the order in
      which the four are applied does not matter, and the rows keep the
      order of the asset list. */
  lemma {:induction false} FilteredIsConjunction(assets: seq<Asset>, f: Filters, term: string)
    ensures FilteredAssets(assets, f, term) == Filter(assets, ByAll(f, term))
    ensures IsSubsequence(FilteredAssets(assets, f, term), assets)
  {
    var p1, p2, p3, p4 := ByLocation(f.location), ByStatus(f.status), ByInventoried(f.inventoried), BySearch(term);
    var p12 := (a: Asset) => p1(a) && p2(a);
    var p123 := (a: Asset) => p12(a) && p3(a);
    FilterFuse(assets, p1, p2, p12);
    FilterFuse(assets, p12, p3, p123);
    FilterFuse(assets, p123, p4, ByAll(f, term));
    FilterIsSubsequence(assets, ByAll(f, term));
  }

  /** With every filter on "all" and an empty search, every asset is shown. */
  lemma NoFilterShowsAll(assets: seq<Asset>)
    ensures FilteredAssets(assets, Filters("", "", ""), "") == assets
  {
    FilteredIsConjunction(assets, Filters("", "", ""), "");
    FilterKeepsAll(assets, ByAll(Filters("", "", ""), ""));
  }

  /** The inventoried filter: "" allows everything, while "0" and "1" each
      allow exactly the assets with that flag; in particular "0" is a real
      constraint and not the "all" option. */
  lemma InventoriedFilterOptions(a: Asset)
    ensures InventoriedMatches(a, "")
    ensures InventoriedMatches(a, "0") <==> a.inventariado == 0
    ensures InventoriedMatches(a, "1") <==> a.inventariado == 1
  {
    assert DecimalValue("0") == 0 by { assert "0"[..0] == ""; }
    assert DecimalValue("1") == 1 by { assert "1"[..0] == ""; }
  }

  /** A location option carries the location's code as text; choosing it
      allows exactly the assets at that location. */
  lemma LocationFilterOption(a: Asset, code: int)
    ensures LocationMatches(a, IntToString(code)) <==> a.local_fisico == code
  {
    ParseIntToString(code);
  }

  /** A status option allows exactly the assets in that state. */
  lemma StatusFilterOption(a: Asset, s: AssetStatus)
    ensures StatusMatches(a, StatusName(s)) <==> a.situacao == s
  {
    StatusNameInjective(a.situacao, s);
  }

  /** The search: an empty term allows every asset; otherwise the term
      occurs somewhere in the lower-cased description (lower-cased as well)
      or somewhere in the code. */
  lemma SearchSemantics(a: Asset, term: string)
    ensures SearchMatches(a, "")
    ensures SearchMatches(a, term) <==>
              (exists i :: OccursAt(Lower(a.descricao), Lower(term), i)) ||
              (exists i :: OccursAt(a.codigo_bem, term, i))
  {
    assert Contains(a.codigo_bem, "");
    ContainsIff(Lower(a.descricao), Lower(term));
    ContainsIff(a.codigo_bem, term);
    assert Contains(Lower(a.descricao), Lower(term)) <==> exists i :: OccursAt(Lower(a.descricao), Lower(term), i);
    assert Contains(a.codigo_bem, term) <==> exists i :: OccursAt(a.codigo_bem, term, i);
  }

  /** Of three assets (Ativo and inventoried, Ativo and not inventoried,
      Inativo and inventoried), filtering by status "Ativo" and inventoried
      "1" keeps exactly the first. */
  lemma StatusAndInventoriedExample(x: Asset, y: Asset, z: Asset)
    requires x.situacao == Ativo && x.inventariado == 1
    requires y.situacao == Ativo && y.inventariado == 0
    requires z.situacao == Inativo && z.inventariado == 1
    ensures FilteredAssets([x, y, z], Filters("", "Ativo", "1"), "") == [x]
  {
    var f := Filters("", "Ativo", "1");
    FilteredIsConjunction([x, y, z], f, "");
    InventoriedFilterOptions(x);
    InventoriedFilterOptions(y);
    StatusFilterOption(z, Ativo);
    SearchSemantics(x, "");
    assert Matches(x, f, "") && !Matches(y, f, "") && !Matches(z, f, "");
    var p := ByAll(f, "");
    assert [x, y, z][1..] == [y, z] && [y, z][1..] == [z] && [z][1..] == [];
    assert Filter([z], p) == [];
    assert Filter([y, z], p) == [];
    assert Filter([x, y, z], p) == [x] + Filter([y, z], p);
  }

  /** The location options of the form: active locations, plus the one the
      edited asset is at (if any), in their original order. */
  function ActiveLocations(locations: seq<Location>, editedAt: Option<int>): (r: seq<Location>)
    ensures forall l :: l in r <==> l in locations && (l.ativo == 1 || editedAt == Some(l.cod_local))
    ensures IsSubsequence(r, locations)
  {
    var offered := (l: Location) => l.ativo == 1 || editedAt == Some(l.cod_local);
    FilterIsSubsequence(locations, offered);
    Filter(locations, offered)
  }

  /** The asset form's state: every field may be missing (`Partial<Asset>`). */
  datatype AssetForm = AssetForm(
    cod: Option<int>,
    codigo_bem: Option<string>,
    descricao: Option<string>,
    data_aquisicao: Option<string>,
    forma_aquisicao: Option<string>,
    fornecedor: Option<string>,
    local_fisico: Option<int>,
    situacao: Option<AssetStatus>,
    inventariado: Option<Flag>,
    observacoes: Option<string>)

  /** A text field is filled when present and not the empty string. */
  predicate Filled(s: Option<string>) { s.Some? && s.value != "" }

  /** The form's initial state: defaults (today's date, status Ativo, not
      inventoried, empty texts, no location), overridden by every field the
      edited asset has. */
  function InitialForm(asset: AssetForm, today: string): (form: AssetForm)
    ensures form.cod == asset.cod && form.local_fisico == asset.local_fisico
    ensures asset.codigo_bem.Some? ==> form.codigo_bem == asset.codigo_bem
    ensures asset.descricao.Some? ==> form.descricao == asset.descricao
    ensures asset.data_aquisicao.Some? ==> form.data_aquisicao == asset.data_aquisicao
    ensures asset.forma_aquisicao.Some? ==> form.forma_aquisicao == asset.forma_aquisicao
    ensures asset.fornecedor.Some? ==> form.fornecedor == asset.fornecedor
    ensures asset.situacao.Some? ==> form.situacao == asset.situacao
    ensures asset.inventariado.Some? ==> form.inventariado == asset.inventariado
    ensures asset.observacoes.Some? ==> form.observacoes == asset.observacoes
    ensures asset.data_aquisicao.None? ==> form.data_aquisicao == Some(today)
    ensures asset.situacao.None? ==> form.situacao == Some(Ativo)
    ensures asset.inventariado.None? ==> form.inventariado == Some(0)
    ensures asset.codigo_bem.None? ==> form.codigo_bem == Some("")
    ensures asset.descricao.None? ==> form.descricao == Some("")
  {
    AssetForm(
      asset.cod,
      Some(if asset.codigo_bem.Some? then asset.codigo_bem.value else ""),
      Some(if asset.descricao.Some? then asset.descricao.value else ""),
      Some(if asset.data_aquisicao.Some? then asset.data_aquisicao.value else today),
      Some(if asset.forma_aquisicao.Some? then asset.forma_aquisicao.value else ""),
      Some(if asset.fornecedor.Some? then asset.fornecedor.value else ""),
      asset.local_fisico,
      Some(if asset.situacao.Some? then asset.situacao.value else Ativo),
      Some(if asset.inventariado.Some? then asset.inventariado.value else 0),
      Some(if asset.observacoes.Some? then asset.observacoes.value else ""))
  }

  /** Submit: the form is handed to the save callback unchanged when its
      description, code, location and acquisition date are all filled (a
      location code of 0 counts as missing); otherwise nothing is saved. */
  function HandleSubmit(form: AssetForm): (saved: Option<AssetForm>)
    ensures saved.Some? <==> Filled(form.descricao) && Filled(form.codigo_bem) &&
                             form.local_fisico.Some? && form.local_fisico.value != 0 &&
                             Filled(form.data_aquisicao)
    ensures saved.Some? ==> saved.value == form
  {
    if !Filled(form.descricao) || !Filled(form.codigo_bem) ||
       form.local_fisico.None? || form.local_fisico.value == 0 ||
       !Filled(form.data_aquisicao)
    then None
    else Some(form)
  }

  /** A new asset's form cannot be saved until it is filled in: the default
      code, description and location are empty. */
  lemma NewFormIsRejected(today: string)
    ensures HandleSubmit(InitialForm(AssetForm(None, None, None, None, None, None, None, None, None, None), today)).None?
  {
  }

  /** The form of a stored asset (whose required fields are filled and
      whose location code is not 0) can be saved as it opens. */
  lemma StoredAssetFormIsAccepted(a: Asset, today: string)
    requires a.codigo_bem != "" && a.descricao != "" && a.data_aquisicao != "" && a.local_fisico != 0
    ensures HandleSubmit(InitialForm(FormOf(a), today)).Some?
  {
  }

  /** The form state for editing a stored asset: every field present. */
  function FormOf(a: Asset): (form: AssetForm)
    ensures form.cod.Some? && form.codigo_bem.Some? && form.descricao.Some? &&
            form.data_aquisicao.Some? && form.local_fisico.Some? &&
            form.situacao.Some? && form.inventariado.Some?
  {
    AssetForm(Some(a.cod), Some(a.codigo_bem), Some(a.descricao), Some(a.data_aquisicao),
              a.forma_aquisicao, a.fornecedor, Some(a.local_fisico), Some(a.situacao),
              Some(a.inventariado), a.observacoes)
  }

  /** Opening the form on a stored asset shows that asset: every field of
      the asset is in the form's initial state, and only its absent optional
      texts take the empty default. */
  lemma EditFormShowsAsset(a: Asset, today: string)
    ensures var form := InitialForm(FormOf(a), today);
            form.cod == Some(a.cod) && form.codigo_bem == Some(a.codigo_bem) &&
            form.descricao == Some(a.descricao) && form.data_aquisicao == Some(a.data_aquisicao) &&
            form.local_fisico == Some(a.local_fisico) && form.situacao == Some(a.situacao) &&
            form.inventariado == Some(a.inventariado) &&
            form.fornecedor == Some(if a.fornecedor.Some? then a.fornecedor.value else "") &&
            form.forma_aquisicao == Some(if a.forma_aquisicao.Some? then a.forma_aquisicao.value else "") &&
            form.observacoes == Some(if a.observacoes.Some? then a.observacoes.value else "")
  {
  }

  /** The asset to open for editing when the route names a code: none when
      the route has no code, otherwise the asset stored under the padded code. */
  function EditTarget(assets: seq<Asset>, routeCode: string): (r: Option<Asset>)
    ensures routeCode == "" ==> r.None?
    ensures r.Some? ==> r.value in assets && r.value.codigo_bem == PadAssetCode(routeCode)
    ensures r.Some? ==> exists i :: 0 <= i < |assets| && assets[i] == r.value &&
                                    forall j :: 0 <= j < i ==> assets[j].codigo_bem != PadAssetCode(routeCode)
    ensures routeCode != "" && r.None? ==>
              forall i :: 0 <= i < |assets| ==> assets[i].codigo_bem != PadAssetCode(routeCode)
  {
    if routeCode == "" then None else Api.AssetByCode(assets, routeCode)
  }
}
