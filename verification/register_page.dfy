/** The registration form's state and its change handlers. Each handler
    maps the old form to a new one: a record spread, an update at an index,
    an appended blank entry or a `filter` that drops one index. */
module RegisterPage {
  import opened Wrappers

  datatype Endereco = Endereco(cidade: string, estado: string)

  datatype Historico = Historico(periodo: string, endereco: Endereco)

  datatype Familiar = Familiar(nome: string, grauParentesco: string, endereco: Endereco)

  datatype Form = Form(
    email: string,
    password: string,
    nomeCompleto: string,
    dataNascimento: string,
    genero: string,
    cidadeNascimento: Endereco,
    cidadeAtual: Endereco,
    historicoMoradia: seq<Historico>,
    familiares: seq<Familiar>)

  const BlankEndereco: Endereco := Endereco("", "")

  const BlankHistorico: Historico := Historico("", BlankEndereco)

  const BlankFamiliar: Familiar := Familiar("", "", BlankEndereco)

  /** The text inputs bound to `handleChange` by their `name`. */
  datatype TopField = Email | Password | NomeCompleto | DataNascimento | Genero

  /** The two nested addresses, and the two sub-fields of an address. */
  datatype Parent = CidadeNascimento | CidadeAtual

  datatype AddressField = Cidade | Estado

  /** The top-level text field of a housing-history entry. */
  datatype HistoricoField = Periodo

  /** The top-level text fields of a relative. */
  datatype FamiliarField = Nome | GrauParentesco

  /** The form before any edit: every text empty, one blank entry in each list. */
  function InitialForm(): (f: Form)
    ensures forall t :: Get(f, t) == ""
    ensures f.cidadeNascimento == BlankEndereco && f.cidadeAtual == BlankEndereco
    ensures f.historicoMoradia == [BlankHistorico] && f.familiares == [BlankFamiliar]
  {
    Form("", "", "", "", "", BlankEndereco, BlankEndereco, [BlankHistorico], [BlankFamiliar])
  }

  function Get(f: Form, t: TopField): string {
    match t
    case Email => f.email
    case Password => f.password
    case NomeCompleto => f.nomeCompleto
    case DataNascimento => f.dataNascimento
    case Genero => f.genero
  }

  function GetAddress(e: Endereco, a: AddressField): string {
    match a
    case Cidade => e.cidade
    case Estado => e.estado
  }

  function GetParent(f: Form, p: Parent): Endereco {
    match p
    case CidadeNascimento => f.cidadeNascimento
    case CidadeAtual => f.cidadeAtual
  }

  /** `{ ...e, [a]: value }` on an address: sets one sub-field, keeps the other. */
  function SetAddress(e: Endereco, a: AddressField, value: string): (r: Endereco)
    ensures GetAddress(r, a) == value
    ensures forall b :: b != a ==> GetAddress(r, b) == GetAddress(e, b)
  {
    match a
    case Cidade => e.(cidade := value)
    case Estado => e.(estado := value)
  }

  // ------------------------------------------------------------ top level

  /** `handleChange`: the named field gets the value, every other field of
      the form keeps its value. */
  function HandleChange(f: Form, t: TopField, value: string): (r: Form)
    ensures Get(r, t) == value
    ensures forall u :: u != t ==> Get(r, u) == Get(f, u)
    ensures r.cidadeNascimento == f.cidadeNascimento && r.cidadeAtual == f.cidadeAtual
    ensures r.historicoMoradia == f.historicoMoradia && r.familiares == f.familiares
  {
    match t
    case Email => f.(email := value)
    case Password => f.(password := value)
    case NomeCompleto => f.(nomeCompleto := value)
    case DataNascimento => f.(dataNascimento := value)
    case Genero => f.(genero := value)
  }

  /** `handleNestedChange`: one sub-field of one of the two addresses
      changes; its sibling, the other address and the rest stay. */
  function HandleNestedChange(f: Form, p: Parent, a: AddressField, value: string): (r: Form)
    ensures GetAddress(GetParent(r, p), a) == value
    ensures forall b :: b != a ==> GetAddress(GetParent(r, p), b) == GetAddress(GetParent(f, p), b)
    ensures forall q :: q != p ==> GetParent(r, q) == GetParent(f, q)
    ensures r == f.(cidadeNascimento := r.cidadeNascimento, cidadeAtual := r.cidadeAtual)
  {
    match p
    case CidadeNascimento => f.(cidadeNascimento := SetAddress(f.cidadeNascimento, a, value))
    case CidadeAtual => f.(cidadeAtual := SetAddress(f.cidadeAtual, a, value))
  }

  // ------------------------------------------------------- list operations

  /** `copy[i] = x` on a fresh copy: entry i is replaced, the length and
      every other entry are kept. */
  function UpdateAt<T>(s: seq<T>, i: nat, x: T): (r: seq<T>)
    requires i < |s|
    ensures |r| == |s| && r[i] == x
    ensures forall k :: 0 <= k < |s| && k != i ==> r[k] == s[k]
  {
    s[i := x]
  }

  /** `[...s, x]`: one more entry at the end, the earlier ones unchanged. */
  function Append<T>(s: seq<T>, x: T): (r: seq<T>)
    ensures |r| == |s| + 1 && r[..|s|] == s && r[|s|] == x
  {
    s + [x]
  }

  /** `s.filter((_, k) => k !== i)`, walking the list with its positions:
      exactly entry i is dropped and the others keep their order; an index
      outside the list drops nothing. */
  function RemoveAt<T>(s: seq<T>, i: int): (r: seq<T>)
    ensures 0 <= i < |s| ==> |r| == |s| - 1 && r == s[..i] + s[i + 1..]
    ensures !(0 <= i < |s|) ==> r == s
    decreases |s|
  {
    if s == [] then []
    else
      var rest := RemoveAt(s[1..], i - 1);
      if i == 0 then rest
      else
        assert 0 < i < |s| ==> [s[0]] + (s[1..][..i - 1] + s[1..][i..]) == s[..i] + s[i + 1..];
        assert !(0 <= i < |s|) ==> [s[0]] + s[1..] == s;
        [s[0]] + rest
  }

  /** The same removal, entry by entry. */
  lemma RemoveAtEntries<T>(s: seq<T>, i: int)
    requires 0 <= i < |s|
    ensures forall k :: 0 <= k < i ==> RemoveAt(s, i)[k] == s[k]
    ensures forall k :: i <= k < |s| - 1 ==> RemoveAt(s, i)[k] == s[k + 1]
  {
  }

  // ------------------------------------------------------ housing history

  /** `handleHistoricoChange`: only entry `index` changes; with a sub-field
      only that part of its address changes, without one only its period. */
  function HandleHistoricoChange(f: Form, index: nat, field: HistoricoField, value: string,
                                 subField: Option<AddressField>): (r: Form)
    requires index < |f.historicoMoradia|
    ensures r == f.(historicoMoradia := r.historicoMoradia)
    ensures |r.historicoMoradia| == |f.historicoMoradia|
    ensures forall k :: 0 <= k < |f.historicoMoradia| && k != index ==>
      r.historicoMoradia[k] == f.historicoMoradia[k]
    ensures subField.Some? ==>
      var old_ := f.historicoMoradia[index]; var new_ := r.historicoMoradia[index];
      && new_.periodo == old_.periodo
      && GetAddress(new_.endereco, subField.value) == value
      && forall b :: b != subField.value ==> GetAddress(new_.endereco, b) == GetAddress(old_.endereco, b)
    ensures subField.None? ==>
      r.historicoMoradia[index].periodo == value
      && r.historicoMoradia[index].endereco == f.historicoMoradia[index].endereco
  {
    var entry := f.historicoMoradia[index];
    var newEntry :=
      if subField.Some? then entry.(endereco := SetAddress(entry.endereco, subField.value, value))
      else match field case Periodo => entry.(periodo := value);
    f.(historicoMoradia := UpdateAt(f.historicoMoradia, index, newEntry))
  }

  /** `addHistorico`: a blank entry is appended. */
  function AddHistorico(f: Form): (r: Form)
    ensures |r.historicoMoradia| == |f.historicoMoradia| + 1
    ensures r.historicoMoradia[..|f.historicoMoradia|] == f.historicoMoradia
    ensures r.historicoMoradia[|f.historicoMoradia|] == BlankHistorico
    ensures r == f.(historicoMoradia := r.historicoMoradia)
  {
    f.(historicoMoradia := Append(f.historicoMoradia, BlankHistorico))
  }

  /** `removeHistorico(index)`: entry `index` is dropped, the rest kept. */
  function RemoveHistorico(f: Form, index: int): (r: Form)
    ensures 0 <= index < |f.historicoMoradia| ==>
      r.historicoMoradia == f.historicoMoradia[..index] + f.historicoMoradia[index + 1..]
    ensures !(0 <= index < |f.historicoMoradia|) ==> r == f
    ensures r == f.(historicoMoradia := r.historicoMoradia)
  {
    f.(historicoMoradia := RemoveAt(f.historicoMoradia, index))
  }

  // ------------------------------------------------------------ relatives

  /** `handleFamiliarChange`: only entry `index` changes; with a sub-field
      only that part of its address changes, without one only the named
      field. */
  function HandleFamiliarChange(f: Form, index: nat, field: FamiliarField, value: string,
                                subField: Option<AddressField>): (r: Form)
    requires index < |f.familiares|
    ensures r == f.(familiares := r.familiares)
    ensures |r.familiares| == |f.familiares|
    ensures forall k :: 0 <= k < |f.familiares| && k != index ==> r.familiares[k] == f.familiares[k]
    ensures subField.Some? ==>
      var old_ := f.familiares[index]; var new_ := r.familiares[index];
      && new_.nome == old_.nome && new_.grauParentesco == old_.grauParentesco
      && GetAddress(new_.endereco, subField.value) == value
      && forall b :: b != subField.value ==> GetAddress(new_.endereco, b) == GetAddress(old_.endereco, b)
    ensures subField.None? ==>
      var old_ := f.familiares[index]; var new_ := r.familiares[index];
      && new_.endereco == old_.endereco
      && (field == Nome ==> new_.nome == value && new_.grauParentesco == old_.grauParentesco)
      && (field == GrauParentesco ==> new_.grauParentesco == value && new_.nome == old_.nome)
  {
    var entry := f.familiares[index];
    var newEntry :=
      if subField.Some? then entry.(endereco := SetAddress(entry.endereco, subField.value, value))
      else match field
        case Nome => entry.(nome := value)
        case GrauParentesco => entry.(grauParentesco := value);
    f.(familiares := UpdateAt(f.familiares, index, newEntry))
  }

  /** `addFamiliar`: a blank relative is appended. */
  function AddFamiliar(f: Form): (r: Form)
    ensures |r.familiares| == |f.familiares| + 1
    ensures r.familiares[..|f.familiares|] == f.familiares
    ensures r.familiares[|f.familiares|] == BlankFamiliar
    ensures r == f.(familiares := r.familiares)
  {
    f.(familiares := Append(f.familiares, BlankFamiliar))
  }

  /** `removeFamiliar(index)`: entry `index` is dropped, the rest kept. */
  function RemoveFamiliar(f: Form, index: int): (r: Form)
    ensures 0 <= index < |f.familiares| ==>
      r.familiares == f.familiares[..index] + f.familiares[index + 1..]
    ensures !(0 <= index < |f.familiares|) ==> r == f
    ensures r == f.(familiares := r.familiares)
  {
    f.(familiares := RemoveAt(f.familiares, index))
  }

  // -------------------------------------------------------------- the page

  /** Everything the page lets the user do to the form. Index-taking edits
      come from the rendered entries; the remove buttons are disabled while
      their list has one entry. */
  datatype Edit =
    | Change(field: TopField, value: string)
    | NestedChange(parent: Parent, sub: AddressField, value: string)
    | EditHistorico(index: nat, hfield: HistoricoField, value: string, subField: Option<AddressField>)
    | ClickAddHistorico
    | ClickRemoveHistorico(index: nat)
    | EditFamiliar(index: nat, ffield: FamiliarField, value: string, subField: Option<AddressField>)
    | ClickAddFamiliar
    | ClickRemoveFamiliar(index: nat)

  /** The `disabled` expression of a remove button. */
  predicate RemoveDisabled<T>(list: seq<T>) {
    |list| == 1
  }

  /** The edit is on screen and enabled in this state. */
  predicate Offered(f: Form, e: Edit) {
    match e
    case EditHistorico(i, _, _, _) => i < |f.historicoMoradia|
    case ClickRemoveHistorico(i) => i < |f.historicoMoradia| && !RemoveDisabled(f.historicoMoradia)
    case EditFamiliar(i, _, _, _) => i < |f.familiares|
    case ClickRemoveFamiliar(i) => i < |f.familiares| && !RemoveDisabled(f.familiares)
    case _ => true
  }

  /** One user action; an action the page does not offer changes nothing.
      A remove button at length 1 is disabled, an enabled one drops exactly
      one entry, an add button appends one, and every other action keeps
      the lengths of both lists. */
  function Apply(f: Form, e: Edit): (r: Form)
    ensures !Offered(f, e) ==> r == f
    ensures e.ClickRemoveHistorico? && RemoveDisabled(f.historicoMoradia) ==> r == f
    ensures e.ClickRemoveFamiliar? && RemoveDisabled(f.familiares) ==> r == f
    ensures e.ClickRemoveHistorico? && Offered(f, e) ==>
      |r.historicoMoradia| == |f.historicoMoradia| - 1 && r.familiares == f.familiares
    ensures e.ClickRemoveFamiliar? && Offered(f, e) ==>
      |r.familiares| == |f.familiares| - 1 && r.historicoMoradia == f.historicoMoradia
    ensures e.ClickAddHistorico? ==>
      |r.historicoMoradia| == |f.historicoMoradia| + 1 && r.familiares == f.familiares
    ensures e.ClickAddFamiliar? ==>
      |r.familiares| == |f.familiares| + 1 && r.historicoMoradia == f.historicoMoradia
    ensures !(e.ClickAddHistorico? || e.ClickRemoveHistorico? || e.ClickAddFamiliar? || e.ClickRemoveFamiliar?) ==>
      |r.historicoMoradia| == |f.historicoMoradia| && |r.familiares| == |f.familiares|
  {
    if !Offered(f, e) then f
    else match e
      case Change(t, v) => HandleChange(f, t, v)
      case NestedChange(p, a, v) => HandleNestedChange(f, p, a, v)
      case EditHistorico(i, h, v, sub) => HandleHistoricoChange(f, i, h, v, sub)
      case ClickAddHistorico => AddHistorico(f)
      case ClickRemoveHistorico(i) => RemoveHistorico(f, i)
      case EditFamiliar(i, h, v, sub) => HandleFamiliarChange(f, i, h, v, sub)
      case ClickAddFamiliar => AddFamiliar(f)
      case ClickRemoveFamiliar(i) => RemoveFamiliar(f, i)
  }

  /** A run of user actions, in order. Each action appends at most one entry
      to either list. */
  function ApplyAll(f: Form, edits: seq<Edit>): (r: Form)
    ensures |r.historicoMoradia| <= |f.historicoMoradia| + |edits|
    ensures |r.familiares| <= |f.familiares| + |edits|
    decreases |edits|
  {
    if edits == [] then f else ApplyAll(Apply(f, edits[0]), edits[1..])
  }

  /** No action ever empties a list that has an entry. */
  lemma ApplyKeepsListsNonEmpty(f: Form, e: Edit)
    requires |f.historicoMoradia| >= 1 && |f.familiares| >= 1
    ensures |Apply(f, e).historicoMoradia| >= 1 && |Apply(f, e).familiares| >= 1
  {
  }

  /** Whatever the user does, starting from the initial form, both lists
      keep at least one entry. */
  lemma {:induction false} ListsNeverEmpty(f: Form, edits: seq<Edit>)
    requires |f.historicoMoradia| >= 1 && |f.familiares| >= 1
    ensures |ApplyAll(f, edits).historicoMoradia| >= 1 && |ApplyAll(f, edits).familiares| >= 1
    decreases |edits|
  {
    if edits != [] {
      ApplyKeepsListsNonEmpty(f, edits[0]);
      ListsNeverEmpty(Apply(f, edits[0]), edits[1..]);
    }
  }

  lemma FromInitialListsNeverEmpty(edits: seq<Edit>)
    ensures |ApplyAll(InitialForm(), edits).historicoMoradia| >= 1
    ensures |ApplyAll(InitialForm(), edits).familiares| >= 1
  {
    ListsNeverEmpty(InitialForm(), edits);
  }
}
