/**
 * The registration form: its Zod schema (the three field bounds with their
 * own messages and two refinements on the selected image file) and the JSON
 * payload `onSubmit` sends to the backend, checked against the backend schema.
 */
module ProductRegisterPage {
  import opened Wrappers
  import opened ProductSchema

  /** `MAX_FILE_SIZE` as written: 5 * 1024 * 1024 * 1024 bytes, five GiB. */
  const MaxFileSize: nat := 5 * 1024 * 1024 * 1024
  /** The five megabytes that the constant's comment and the error message state. */
  const IntendedMaxFileSize: nat := 5 * 1024 * 1024
  const AcceptedImageTypes: seq<string> := ["image/jpeg", "image/png"]

  const NomeMinMessage: string := "O nome deve ter no mínimo 3 caracteres"
  const NomeMaxMessage: string := "O nome deve ter no máximo 50 caracteres"
  const PrecoTypeMessage: string := "O preço deve ser um número"
  const PrecoMinMessage: string := "O preço mínimo é R$ 10,00"
  const DescricaoMinMessage: string := "A descrição deve ter no mínimo 30 caracteres"
  const DescricaoMaxMessage: string := "A descrição deve ter no máximo 255 caracteres"
  const ImageSizeMessage: string := "Tamanho máximo de 5MB."
  const ImageTypeMessage: string := "Apenas .jpg e .png são aceitos."

  /** A selected file: its size in bytes and its MIME type. */
  datatype FileInfo = FileInfo(size: nat, mimeType: string)

  /**
   * The form's values: two text inputs, the price input read with
   * `valueAsNumber` (NaN when empty) and the file input's list, if any.
   */
  datatype FormValues = FormValues(nome: string, preco: Number, descricao: string, imagem: Option<seq<FileInfo>>)

  /** The checks of the form schema, each with its own message. */
  datatype FormCheck =
    | NomeTooShort | NomeTooLong
    | PrecoNotNumber | PrecoTooLow
    | DescricaoTooShort | DescricaoTooLong
    | ImageTooLarge | ImageWrongType

  /** The field a check's issue is reported on. */
  function Path(c: FormCheck): Field {
    match c
    case NomeTooShort | NomeTooLong => Nome
    case PrecoNotNumber | PrecoTooLow => Preco
    case DescricaoTooShort | DescricaoTooLong => Descricao
    case ImageTooLarge | ImageWrongType => Imagem
  }

  function Message(c: FormCheck): string {
    match c
    case NomeTooShort => NomeMinMessage
    case NomeTooLong => NomeMaxMessage
    case PrecoNotNumber => PrecoTypeMessage
    case PrecoTooLow => PrecoMinMessage
    case DescricaoTooShort => DescricaoMinMessage
    case DescricaoTooLong => DescricaoMaxMessage
    case ImageTooLarge => ImageSizeMessage
    case ImageWrongType => ImageTypeMessage
  }

  function NomeIssues(nome: string): (r: seq<FormCheck>)
    ensures forall c :: c in r ==> Path(c) == Nome
    ensures NomeTooShort in r <==> |nome| < 3
    ensures NomeTooLong in r <==> |nome| > 50
  {
    (if |nome| < 3 then [NomeTooShort] else []) + (if |nome| > 50 then [NomeTooLong] else [])
  }

  function PrecoIssues(preco: Number): (r: seq<FormCheck>)
    ensures forall c :: c in r ==> Path(c) == Preco
    ensures PrecoNotNumber in r <==> preco.NaN?
    ensures PrecoTooLow in r <==> preco.Finite? && preco.x < 10.0
  {
    match preco
    case NaN => [PrecoNotNumber]
    case Finite(x) => if x < 10.0 then [PrecoTooLow] else []
  }

  function DescricaoIssues(descricao: string): (r: seq<FormCheck>)
    ensures forall c :: c in r ==> Path(c) == Descricao
    ensures DescricaoTooShort in r <==> |descricao| < 30
    ensures DescricaoTooLong in r <==> |descricao| > 255
  {
    (if |descricao| < 30 then [DescricaoTooShort] else []) + (if |descricao| > 255 then [DescricaoTooLong] else [])
  }

  /** Exactly one file is selected (`files?.length == 1`). */
  predicate OneFile(files: Option<seq<FileInfo>>) {
    files.Some? && |files.value| == 1
  }

  /** The first refinement: a single file may not exceed the cap. */
  predicate SizeRefinement(files: Option<seq<FileInfo>>, cap: nat) {
    OneFile(files) ==> files.value[0].size <= cap
  }

  /** The second refinement: a single file must be a JPEG or a PNG. */
  predicate TypeRefinement(files: Option<seq<FileInfo>>) {
    OneFile(files) ==> files.value[0].mimeType in AcceptedImageTypes
  }

  function ImageIssues(files: Option<seq<FileInfo>>, cap: nat): (r: seq<FormCheck>)
    ensures forall c :: c in r ==> Path(c) == Imagem
    ensures ImageTooLarge in r <==> !SizeRefinement(files, cap)
    ensures ImageWrongType in r <==> !TypeRefinement(files)
  {
    (if SizeRefinement(files, cap) then [] else [ImageTooLarge]) +
    (if TypeRefinement(files) then [] else [ImageWrongType])
  }

  /** Whether check c fails on the form's values, given the file size cap. */
  predicate Fails(v: FormValues, cap: nat, c: FormCheck) {
    match c
    case NomeTooShort => |v.nome| < 3
    case NomeTooLong => |v.nome| > 50
    case PrecoNotNumber => v.preco.NaN?
    case PrecoTooLow => v.preco.Finite? && v.preco.x < 10.0
    case DescricaoTooShort => |v.descricao| < 30
    case DescricaoTooLong => |v.descricao| > 255
    case ImageTooLarge => OneFile(v.imagem) && v.imagem.value[0].size > cap
    case ImageWrongType => OneFile(v.imagem) && v.imagem.value[0].mimeType !in AcceptedImageTypes
  }

  /** Every check the form schema fails, field by field, and no other. */
  function FormIssues(v: FormValues, cap: nat): (issues: seq<FormCheck>)
    ensures forall c :: c in issues <==> Fails(v, cap, c)
  {
    var n, p, d, im := NomeIssues(v.nome), PrecoIssues(v.preco), DescricaoIssues(v.descricao), ImageIssues(v.imagem, cap);
    assert forall c :: c in n + p + d + im <==> Fails(v, cap, c) by {
      forall c ensures c in n + p + d + im <==> Fails(v, cap, c) {
        InFour(c, n, p, d, im);
        assert c in n ==> Path(c) == Nome;
        assert c in p ==> Path(c) == Preco;
        assert c in d ==> Path(c) == Descricao;
        assert c in im ==> Path(c) == Imagem;
      }
    }
    n + p + d + im
  }

  lemma InFour(c: FormCheck, n: seq<FormCheck>, p: seq<FormCheck>, d: seq<FormCheck>, im: seq<FormCheck>)
    ensures c in n + p + d + im <==> c in n || c in p || c in d || c in im
  {
  }

  /** The form's constraints read declaratively. */
  predicate Accepts(v: FormValues, cap: nat) {
    && 3 <= |v.nome| <= 50
    && v.preco.Finite? && v.preco.x >= 10.0
    && 30 <= |v.descricao| <= 255
    && SizeRefinement(v.imagem, cap)
    && TypeRefinement(v.imagem)
  }

  /** The form schema parse, with the size cap as a parameter; success returns the values unchanged. */
  function ValidateWith(v: FormValues, cap: nat): (r: Result<FormValues, seq<FormCheck>>)
    ensures r.Success? <==> Accepts(v, cap)
    ensures r.Success? ==> r.value == v
    ensures r.Failure? ==> r.error != [] && r.error == FormIssues(v, cap)
  {
    var issues := FormIssues(v, cap);
    AcceptsIffNothingFails(v, cap);
    assert issues != [] ==> issues[0] in issues;
    if issues == [] then Success(v) else Failure(issues)
  }

  /** The declarative reading holds exactly when no check fails. */
  lemma AcceptsIffNothingFails(v: FormValues, cap: nat)
    ensures Accepts(v, cap) <==> forall c :: !Fails(v, cap, c)
  {
    if !Accepts(v, cap) {
      if !(3 <= |v.nome|) { assert Fails(v, cap, NomeTooShort); }
      else if !(|v.nome| <= 50) { assert Fails(v, cap, NomeTooLong); }
      else if v.preco.NaN? { assert Fails(v, cap, PrecoNotNumber); }
      else if v.preco.x < 10.0 { assert Fails(v, cap, PrecoTooLow); }
      else if !(30 <= |v.descricao|) { assert Fails(v, cap, DescricaoTooShort); }
      else if !(|v.descricao| <= 255) { assert Fails(v, cap, DescricaoTooLong); }
      else if !SizeRefinement(v.imagem, cap) { assert Fails(v, cap, ImageTooLarge); }
      else { assert Fails(v, cap, ImageWrongType); }
    }
  }

  /** The schema as written, with the five GiB cap. */
  function Validate(v: FormValues): Result<FormValues, seq<FormCheck>> {
    ValidateWith(v, MaxFileSize)
  }

  /** The schema with the cap its message states. */
  function ValidateIntended(v: FormValues): Result<FormValues, seq<FormCheck>> {
    ValidateWith(v, IntendedMaxFileSize)
  }

  /** Both refinements pass whenever the number of selected files is not one. */
  lemma RefinementsNeedOneFile(v: FormValues, cap: nat)
    requires !OneFile(v.imagem)
    ensures forall i :: 0 <= i < |FormIssues(v, cap)| ==> Path(FormIssues(v, cap)[i]) != Imagem
  {
  }

  /** How JSON.stringify writes a number: NaN becomes null. */
  function JsonNumber(n: Number): Value {
    match n
    case Finite(_) => VNum(n)
    case NaN => VNull
  }

  /** `imageBase64`: the first selected file's data URL, if any file is selected. */
  function ImageText(files: Option<seq<FileInfo>>, encode: FileInfo -> string): (r: Option<string>)
    ensures r.Some? <==> files.Some? && |files.value| > 0
    ensures r.Some? ==> r.value == encode(files.value[0])
  {
    if files.Some? && |files.value| > 0 then Some(encode(files.value[0])) else None
  }

  /** `{ ...data, imagem: imageBase64 }` as the backend receives it: no image is null. */
  function PayloadAsWritten(v: FormValues, encode: FileInfo -> string): (m: map<string, Value>)
    ensures m.Keys == {"nome", "preco", "descricao", "imagem"}
    ensures m["imagem"] == VNull <==> ImageText(v.imagem, encode).None?
    ensures ImageText(v.imagem, encode).Some? ==> m["imagem"] == VStr(ImageText(v.imagem, encode).value)
  {
    map["nome" := VStr(v.nome), "preco" := JsonNumber(v.preco), "descricao" := VStr(v.descricao),
        "imagem" := match ImageText(v.imagem, encode) case Some(t) => VStr(t) case None => VNull]
  }

  /** The payload with the key left out when there is no image, which the backend's optional string admits. */
  function Payload(v: FormValues, encode: FileInfo -> string): (m: map<string, Value>)
    ensures "imagem" in m <==> ImageText(v.imagem, encode).Some?
    ensures m.Keys - {"imagem"} == {"nome", "preco", "descricao"}
    ensures "imagem" in m ==> m["imagem"] == VStr(ImageText(v.imagem, encode).value)
  {
    var m := map["nome" := VStr(v.nome), "preco" := JsonNumber(v.preco), "descricao" := VStr(v.descricao)];
    match ImageText(v.imagem, encode)
    case Some(t) => m["imagem" := VStr(t)]
    case None => m
  }

  /** Both payloads carry the three shared fields as the form holds them. */
  lemma PayloadSharedFields(v: FormValues, encode: FileInfo -> string)
    ensures forall m :: m == Payload(v, encode) || m == PayloadAsWritten(v, encode) ==>
      && "nome" in m && m["nome"] == VStr(v.nome)
      && "preco" in m && m["preco"] == JsonNumber(v.preco)
      && "descricao" in m && m["descricao"] == VStr(v.descricao)
  {
  }

  /** Has the form raised an issue on this field? */
  predicate Flags(issues: seq<FormCheck>, f: Field) {
    exists i :: 0 <= i < |issues| && Path(issues[i]) == f
  }

  lemma FlagsAppend(a: seq<FormCheck>, b: seq<FormCheck>, f: Field)
    ensures Flags(a + b, f) <==> Flags(a, f) || Flags(b, f)
  {
    if Flags(a + b, f) {
      var i :| 0 <= i < |a + b| && Path((a + b)[i]) == f;
      if i < |a| { assert (a + b)[i] == a[i]; } else { assert (a + b)[i] == b[i - |a|]; }
    }
    if Flags(a, f) {
      var i :| 0 <= i < |a| && Path(a[i]) == f;
      assert (a + b)[i] == a[i];
    }
    if Flags(b, f) {
      var i :| 0 <= i < |b| && Path(b[i]) == f;
      assert (a + b)[|a| + i] == b[i];
    }
  }

  /** A list of checks on field g flags f exactly when it is non-empty and g is f. */
  lemma FlagsOwnField(r: seq<FormCheck>, g: Field, f: Field)
    requires forall c :: c in r ==> Path(c) == g
    ensures Flags(r, f) <==> r != [] && g == f
  {
    if r != [] {
      assert r[0] in r;
      if Flags(r, f) {
        var i :| 0 <= i < |r| && Path(r[i]) == f;
        assert r[i] in r;
      }
    }
  }

  /** The form flags field f exactly when the checks of that field raise something. */
  lemma FlagsFormIssues(v: FormValues, cap: nat, f: Field)
    ensures Flags(FormIssues(v, cap), f) <==>
      match f
      case Nome => NomeIssues(v.nome) != []
      case Preco => PrecoIssues(v.preco) != []
      case Descricao => DescricaoIssues(v.descricao) != []
      case Imagem => ImageIssues(v.imagem, cap) != []
  {
    var n, p, d, im := NomeIssues(v.nome), PrecoIssues(v.preco), DescricaoIssues(v.descricao), ImageIssues(v.imagem, cap);
    assert FormIssues(v, cap) == n + p + d + im;
    FlagsAppend(n + p + d, im, f);
    FlagsAppend(n + p, d, f);
    FlagsAppend(n, p, f);
    FlagsOwnField(n, Nome, f);
    FlagsOwnField(p, Preco, f);
    FlagsOwnField(d, Descricao, f);
    FlagsOwnField(im, Imagem, f);
  }

  /** The form and the backend bound nome, preco and descricao identically. */
  lemma SharedBoundsAgree(v: FormValues, cap: nat, encode: FileInfo -> string, f: Field)
    requires f != Imagem
    ensures !Flags(FormIssues(v, cap), f) <==> FieldOk(Payload(v, encode), f)
    ensures !Flags(FormIssues(v, cap), f) <==> FieldOk(PayloadAsWritten(v, encode), f)
  {
    FlagsFormIssues(v, cap, f);
    PayloadSharedFields(v, encode);
  }

  /**
   * As written, a form the schema accepts reaches the backend schema intact
   * only when it carries an image: without one, `imagem: null` fails
   * `z.string().optional()` as the single issue.
   */
  lemma PayloadAsWrittenRejectsNoImage(v: FormValues, cap: nat, encode: FileInfo -> string)
    requires ValidateWith(v, cap).Success?
    ensures SafeParse(PayloadAsWritten(v, encode)).Success? <==> ImageText(v.imagem, encode).Some?
    ensures ImageText(v.imagem, encode).Some? ==>
      SafeParse(PayloadAsWritten(v, encode)) == Success(Product(v.nome, v.preco.x, v.descricao, ImageText(v.imagem, encode)))
    ensures ImageText(v.imagem, encode).None? ==>
      SafeParse(PayloadAsWritten(v, encode)) == Failure([Issue(Imagem, InvalidType)])
  {
    var input := PayloadAsWritten(v, encode);
    assert Accepts(v, cap);
    assert FieldOk(input, Nome) && FieldOk(input, Preco) && FieldOk(input, Descricao);
    if ImageText(v.imagem, encode).None? {
      IssuesInDeclarationOrder(input);
      assert Lookup(input, "imagem") == Some(VNull);
      assert FieldIssues(input, Imagem) == [Issue(Imagem, InvalidType)];
      assert Issues(input) == [Issue(Imagem, InvalidType)];
    }
  }

  /** Every form the schema accepts is accepted by the backend schema, with the same field values. */
  lemma AcceptedFormAcceptedByBackend(v: FormValues, cap: nat, encode: FileInfo -> string)
    requires ValidateWith(v, cap).Success?
    ensures SafeParse(Payload(v, encode)) ==
      Success(Product(v.nome, v.preco.x, v.descricao, ImageText(v.imagem, encode)))
  {
    var input := Payload(v, encode);
    assert Accepts(v, cap);
    assert FieldOk(input, Nome) && FieldOk(input, Preco) && FieldOk(input, Descricao) && FieldOk(input, Imagem);
  }

  /** As written, a single 6 MiB PNG passes the size refinement that speaks of 5MB. */
  lemma SixMiBImageAcceptedAsWritten()
    ensures Validate(FormValues("Camiseta", Finite(10.0), "Camiseta de algodao, tamanho M",
                                Some([FileInfo(6 * 1024 * 1024, "image/png")]))).Success?
  {
    var v := FormValues("Camiseta", Finite(10.0), "Camiseta de algodao, tamanho M",
                        Some([FileInfo(6 * 1024 * 1024, "image/png")]));
    assert v.imagem.value[0].mimeType == AcceptedImageTypes[1];
  }

  /** With the intended cap, a single file over 5 MiB is rejected with the size message, and only such a file is. */
  lemma OversizedImageRejected(v: FormValues)
    ensures OneFile(v.imagem) && v.imagem.value[0].size > IntendedMaxFileSize <==>
      ValidateIntended(v).Failure? && ImageTooLarge in ValidateIntended(v).error
  {
  }
}
