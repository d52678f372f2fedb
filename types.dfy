/** The record types of the inventory panel: users, physical locations and
    assets, with the closed status enumeration and the 0/1 flags. */
module Types {
  import opened Wrappers

  /** A boolean stored as an integer: 1 means yes/active, 0 means no/inactive. */
  type Flag = x: int | 0 <= x <= 1

  /** The closed set of asset states. */
  datatype AssetStatus = Ativo | Inativo | Baixado

  /** The string value carried by each enumeration member. */
  function StatusName(s: AssetStatus): (name: string)
    ensures name != ""
  {
    match s
    case Ativo => "Ativo"
    case Inativo => "Inativo"
    case Baixado => "Baixado"
  }

  /** An operator account. `situacao` is the active flag; `matricula` is
      optional; `data_cadastro` is the registration date. */
  datatype User = User(
    id: int,
    nome: string,
    login: string,
    email: string,
    situacao: Flag,
    matricula: Option<string>,
    data_cadastro: string)

  /** A tracked physical item. `cod` is the surrogate key, `codigo_bem` the
      external (zero-padded) code and `local_fisico` refers to a location's
      `cod_local` by convention only. */
  datatype Asset = Asset(
    cod: int,
    codigo_bem: string,
    descricao: string,
    data_aquisicao: string,
    forma_aquisicao: Option<string>,
    fornecedor: Option<string>,
    local_fisico: int,
    situacao: AssetStatus,
    inventariado: Flag,
    observacoes: Option<string>)

  /** A physical place where assets reside. */
  datatype Location = Location(cod_local: int, descricao: string, ativo: Flag)

  /** The three states are pairwise distinct and there is no fourth. */
  lemma StatusClosed(s: AssetStatus)
    ensures s == Ativo || s == Inativo || s == Baixado
    ensures StatusName(s) in {"Ativo", "Inativo", "Baixado"}
  {
  }

  /** Distinct states carry distinct strings, so comparing an asset's status
      with a filter string identifies at most one state. */
  lemma StatusNameInjective(s: AssetStatus, t: AssetStatus)
    ensures StatusName(s) == StatusName(t) <==> s == t
  {
  }
}
