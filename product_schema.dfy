/**
 * The backend's product schema: a Zod object with four field constraints
 * (nome 3..50 characters, preco >= 10, descricao 30..255 characters, imagem
 * an optional string), and what `safeParse` makes of a request body or of a
 * decoded CSV row.
 */
module ProductSchema {
  import opened Wrappers

  /** A JavaScript number, short of the infinities. */
  datatype Number = Finite(x: real) | NaN

  /** A value handed to the schema: a JSON value or a CSV cell. */
  datatype Value = VNull | VBool(b: bool) | VNum(n: Number) | VStr(s: string) | VComposite

  /** The four keys of the schema, in declaration order. */
  datatype Field = Nome | Preco | Descricao | Imagem

  function Rank(f: Field): nat {
    match f
    case Nome => 0
    case Preco => 1
    case Descricao => 2
    case Imagem => 3
  }

  /** The key of the field, which is also the path Zod reports for it. */
  function Key(f: Field): string {
    match f
    case Nome => "nome"
    case Preco => "preco"
    case Descricao => "descricao"
    case Imagem => "imagem"
  }

  /**
   * A Zod issue: the field it is about and what went wrong. The human-readable
   * message is Zod's default text for the kind.
   */
  datatype IssueKind = InvalidType | TooSmall(minimum: int) | TooBig(maximum: int)
  datatype Issue = Issue(path: Field, kind: IssueKind)

  /** What a successful parse yields. */
  datatype Product = Product(nome: string, preco: real, descricao: string, imagem: Option<string>)

  const NomeMin: nat := 3
  const NomeMax: nat := 50
  const PrecoMin: nat := 10
  const DescricaoMin: nat := 30
  const DescricaoMax: nat := 255

  /** The invariant every stored product satisfies. */
  predicate WellFormed(p: Product) {
    && NomeMin <= |p.nome| <= NomeMax
    && p.preco >= PrecoMin as real
    && DescricaoMin <= |p.descricao| <= DescricaoMax
  }

  /** Declarative reading of each field's constraint. */
  predicate FieldOk(input: map<string, Value>, f: Field) {
    var k := Key(f);
    match f
    case Nome =>
      k in input && input[k].VStr? && NomeMin <= |input[k].s| <= NomeMax
    case Preco =>
      k in input && input[k].VNum? && input[k].n.Finite? && input[k].n.x >= PrecoMin as real
    case Descricao =>
      k in input && input[k].VStr? && DescricaoMin <= |input[k].s| <= DescricaoMax
    case Imagem =>
      k !in input || input[k].VStr?
  }

  predicate Conforms(input: map<string, Value>) {
    FieldOk(input, Nome) && FieldOk(input, Preco) && FieldOk(input, Descricao) && FieldOk(input, Imagem)
  }

  /** `z.string().min(lo).max(hi)`: a type check, then both length checks. */
  function StringIssues(f: Field, v: Option<Value>, lo: nat, hi: nat): seq<Issue>
  {
    match v
    case Some(VStr(s)) =>
      (if |s| < lo then [Issue(f, TooSmall(lo))] else []) +
      (if |s| > hi then [Issue(f, TooBig(hi))] else [])
    case _ => [Issue(f, InvalidType)]
  }

  /** `z.number().min(10)`: NaN fails the type check. */
  function NumberIssues(f: Field, v: Option<Value>, lo: nat): seq<Issue>
  {
    match v
    case Some(VNum(Finite(x))) => if x < lo as real then [Issue(f, TooSmall(lo))] else []
    case _ => [Issue(f, InvalidType)]
  }

  /** `z.string().optional()`: absent or a string; null is neither. */
  function OptionalStringIssues(f: Field, v: Option<Value>): seq<Issue>
  {
    match v
    case None => []
    case Some(VStr(_)) => []
    case Some(_) => [Issue(f, InvalidType)]
  }

  function Lookup(input: map<string, Value>, k: string): Option<Value> {
    if k in input then Some(input[k]) else None
  }

  /** The issues Zod raises for one field. */
  function FieldIssues(input: map<string, Value>, f: Field): (issues: seq<Issue>)
    ensures |issues| <= 1
    ensures forall i :: 0 <= i < |issues| ==> issues[i].path == f
    ensures issues == [] <==> FieldOk(input, f)
  {
    var v := Lookup(input, Key(f));
    match f
    case Nome => StringIssues(f, v, NomeMin, NomeMax)
    case Preco => NumberIssues(f, v, PrecoMin)
    case Descricao => StringIssues(f, v, DescricaoMin, DescricaoMax)
    case Imagem => OptionalStringIssues(f, v)
  }

  /** Some issue in `issues` is about field `f`. */
  predicate Mentions(issues: seq<Issue>, f: Field) {
    exists i :: 0 <= i < |issues| && issues[i].path == f
  }

  /** The schema's keys in declaration order. */
  const Fields: seq<Field> := [Nome, Preco, Descricao, Imagem]

  /** The issues of the given fields, field after field. */
  function IssuesOf(input: map<string, Value>, fs: seq<Field>): seq<Issue>
  {
    if fs == [] then [] else IssuesOf(input, fs[..|fs| - 1]) + FieldIssues(input, fs[|fs| - 1])
  }

  lemma {:induction false} IssuesOfMentions(input: map<string, Value>, fs: seq<Field>, f: Field)
    ensures Mentions(IssuesOf(input, fs), f) <==> f in fs && !FieldOk(input, f)
  {
    if fs != [] {
      var init, last := fs[..|fs| - 1], fs[|fs| - 1];
      IssuesOfMentions(input, init, f);
      var a, b := IssuesOf(input, init), FieldIssues(input, last);
      MentionsAppend(a, b, f);
      assert b != [] ==> b[0].path == last;
      assert fs == init + [last];
    }
  }

  lemma MentionsAppend(a: seq<Issue>, b: seq<Issue>, f: Field)
    ensures Mentions(a + b, f) <==> Mentions(a, f) || Mentions(b, f)
  {
    var ab: seq<Issue> := a + b;
    if Mentions(ab, f) {
      var i: int :| 0 <= i < |ab| && ab[i].path == f;
      if i < |a| { assert a[i] == ab[i]; } else { assert b[i - |a|] == ab[i]; }
    }
    if Mentions(a, f) {
      var i: int :| 0 <= i < |a| && a[i].path == f;
      assert ab[i] == a[i];
    }
    if Mentions(b, f) {
      var i: int :| 0 <= i < |b| && b[i].path == f;
      assert ab[|a| + i] == b[i];
    }
  }

  lemma {:induction false} IssuesOfOrdered(input: map<string, Value>, fs: seq<Field>)
    requires forall i, j :: 0 <= i < j < |fs| ==> Rank(fs[i]) < Rank(fs[j])
    ensures forall i :: 0 <= i < |IssuesOf(input, fs)| ==> IssuesOf(input, fs)[i].path in fs
    ensures forall i, j :: 0 <= i < j < |IssuesOf(input, fs)| ==>
      Rank(IssuesOf(input, fs)[i].path) < Rank(IssuesOf(input, fs)[j].path)
  {
    if fs != [] {
      var init, last := fs[..|fs| - 1], fs[|fs| - 1];
      IssuesOfOrdered(input, init);
      var a, b := IssuesOf(input, init), FieldIssues(input, last);
      forall i | 0 <= i < |a| ensures Rank(a[i].path) < Rank(last) {
        var k :| 0 <= k < |init| && init[k] == a[i].path;
      }
    }
  }

  lemma FieldsFacts()
    ensures forall i, j :: 0 <= i < j < |Fields| ==> Rank(Fields[i]) < Rank(Fields[j])
    ensures forall f :: f in Fields
  {
    forall f ensures f in Fields {
      match f
      case Nome => assert Fields[0] == f;
      case Preco => assert Fields[1] == f;
      case Descricao => assert Fields[2] == f;
      case Imagem => assert Fields[3] == f;
    }
  }

  /** All issues of an object parse: the fields' issues in declaration order. */
  function Issues(input: map<string, Value>): (issues: seq<Issue>)
    ensures forall f :: Mentions(issues, f) <==> !FieldOk(input, f)
    ensures forall i, j :: 0 <= i < j < |issues| ==> Rank(issues[i].path) < Rank(issues[j].path)
    ensures issues == [] <==> Conforms(input)
  {
    FieldsFacts();
    IssuesOfOrdered(input, Fields);
    forall f ensures Mentions(IssuesOf(input, Fields), f) <==> !FieldOk(input, f) {
      IssuesOfMentions(input, Fields, f);
    }
    NoIssues(input, IssuesOf(input, Fields));
    IssuesOf(input, Fields)
  }

  /** The issues of the whole object: nome's, then preco's, then descricao's, then imagem's. */
  lemma {:induction false} IssuesInDeclarationOrder(input: map<string, Value>)
    ensures Issues(input) ==
      FieldIssues(input, Nome) + FieldIssues(input, Preco) + FieldIssues(input, Descricao) + FieldIssues(input, Imagem)
  {
    var n, p, d := [Nome], [Nome, Preco], [Nome, Preco, Descricao];
    assert Fields[..3] == d && d[..2] == p && p[..1] == n && n[..0] == [];
    assert IssuesOf(input, n) == FieldIssues(input, Nome);
    assert IssuesOf(input, p) == IssuesOf(input, n) + FieldIssues(input, Preco);
    assert IssuesOf(input, d) == IssuesOf(input, p) + FieldIssues(input, Descricao);
    assert Issues(input) == IssuesOf(input, d) + FieldIssues(input, Imagem);
  }

  lemma NoIssues(input: map<string, Value>, issues: seq<Issue>)
    requires forall f :: Mentions(issues, f) <==> !FieldOk(input, f)
    ensures issues == [] <==> Conforms(input)
  {
    if issues != [] { assert Mentions(issues, issues[0].path); }
    if !FieldOk(input, Nome) { assert Mentions(issues, Nome); }
    if !FieldOk(input, Preco) { assert Mentions(issues, Preco); }
    if !FieldOk(input, Descricao) { assert Mentions(issues, Descricao); }
    if !FieldOk(input, Imagem) { assert Mentions(issues, Imagem); }
  }

  /** The product a conforming input describes, unchanged. */
  predicate Describes(input: map<string, Value>, p: Product)
    requires Conforms(input)
  {
    && p.nome == input["nome"].s
    && p.preco == input["preco"].n.x
    && p.descricao == input["descricao"].s
    && p.imagem == (if "imagem" in input then Some(input["imagem"].s) else None)
  }

  /** `productSchema.safeParse(input)`. Unknown keys are stripped. */
  function SafeParse(input: map<string, Value>): (r: Result<Product, seq<Issue>>)
    ensures r.Success? <==> Conforms(input)
    ensures r.Success? ==> WellFormed(r.value) && Describes(input, r.value)
    ensures r.Failure? ==> r.error != [] && r.error == Issues(input)
  {
    var issues := Issues(input);
    if issues == [] then
      Success(Product(input["nome"].s, input["preco"].n.x, input["descricao"].s,
                      if "imagem" in input then Some(input["imagem"].s) else None))
    else
      Failure(issues)
  }

  /** A product as JSON: an absent image is an absent key. */
  function ToInput(p: Product): map<string, Value> {
    var m := map["nome" := VStr(p.nome), "preco" := VNum(Finite(p.preco)), "descricao" := VStr(p.descricao)];
    if p.imagem.Some? then m["imagem" := VStr(p.imagem.value)] else m
  }

  /** Every well-formed product passes the schema and comes back unchanged. */
  lemma ParseRoundTrip(p: Product)
    requires WellFormed(p)
    ensures SafeParse(ToInput(p)) == Success(p)
  {
    var input := ToInput(p);
    assert FieldOk(input, Nome) && FieldOk(input, Preco) && FieldOk(input, Descricao) && FieldOk(input, Imagem);
  }

  /** A product the schema accepts is well-formed on every field, and vice versa. */
  lemma AcceptedIffWellFormed(p: Product)
    ensures SafeParse(ToInput(p)).Success? <==> WellFormed(p)
  {
    var input := ToInput(p);
    if WellFormed(p) {
      ParseRoundTrip(p);
    }
  }

  /** An input with exactly one failing field gets exactly one issue, on that field. */
  lemma {:induction false} SingleViolation(input: map<string, Value>, f: Field)
    requires !FieldOk(input, f)
    requires forall g :: g != f ==> FieldOk(input, g)
    ensures SafeParse(input).Failure?
    ensures |SafeParse(input).error| == 1 && SafeParse(input).error[0].path == f
  {
    var issues := Issues(input);
    assert Mentions(issues, f);
    forall i | 0 <= i < |issues| ensures issues[i].path == f {
      assert Mentions(issues, issues[i].path);
    }
    AtMostOnePerField(issues, f);
  }

  lemma AtMostOnePerField(issues: seq<Issue>, f: Field)
    requires forall i :: 0 <= i < |issues| ==> issues[i].path == f
    requires |issues| >= 2 ==> Rank(issues[0].path) < Rank(issues[1].path)
    ensures |issues| <= 1
  {
  }
}
