/**
 * The product controller: single create, bulk CSV import and listing, over a
 * store of products. The store (Prisma) is the `Catalog` class; whether one
 * of its calls fails is an input, and so are the pieces of the request the
 * controller hands to foreign code (the CSV decoder's rows, `Number(...)`,
 * the size of a base64-decoded buffer).
 */
module ProductController {
  import opened Wrappers
  import opened ProductSchema
  import opened ImportReport

  /** One decoded CSV row: header name to cell text. */
  type Row = map<string, string>

  /** Largest decoded image a single create accepts: 2 MiB. */
  const MaxImageBytes: nat := 2 * 1024 * 1024

  const NoFileMessage: string := "Nenhum arquivo enviado"
  const ImageTooLargeMessage: string := "Imagem maior que 2MB"

  /** A product as the store holds it, with the identifier the store assigned. */
  datatype StoredProduct = StoredProduct(id: nat, product: Product)

  datatype Body =
    | Errors(erros: seq<string>)          // { erros: [...] } of literal strings
    | IssueMessages(issues: seq<Issue>)   // { erros: issues.map(e => e.message) }
    | Record(stored: StoredProduct)       // the created product
    | Listing(products: seq<StoredProduct>)
    | NoContent
    | InternalError                       // { message: `${error}` }

  datatype Response = Response(status: nat, body: Body)

  /** `{ ...data, preco: Number(data.preco) }`; `Number(undefined)` is NaN. */
  function CsvRecord(row: Row, toNumber: string -> Number): (input: map<string, Value>)
    ensures input.Keys == row.Keys + {"preco"}
    ensures forall k :: k in row && k != "preco" ==> input[k] == VStr(row[k])
    ensures input["preco"] == VNum(if "preco" in row then toNumber(row["preco"]) else NaN)
  {
    (map k | k in row :: VStr(row[k]))["preco" := VNum(if "preco" in row then toNumber(row["preco"]) else NaN)]
  }

  /** What one CSV row becomes: a validated product, or its error entry. */
  function RowOutcome(row: Row, line: nat, toNumber: string -> Number): (r: Result<Product, string>)
    ensures r.Success? <==> Conforms(CsvRecord(row, toNumber))
    ensures r.Success? ==> SafeParse(CsvRecord(row, toNumber)) == Success(r.value)
    ensures r.Failure? ==> r.error == RowError(line, Issues(CsvRecord(row, toNumber)))
  {
    match SafeParse(CsvRecord(row, toNumber))
    case Success(p) => Success(p)
    case Failure(issues) => Failure(RowError(line, issues))
  }

  /** The outcome of every row, in row order; the row at index k is CSV line k + 2. */
  function Outcomes(rows: seq<Row>, toNumber: string -> Number): (os: seq<Result<Product, string>>)
    ensures |os| == |rows|
  {
    if rows == [] then []
    else Outcomes(rows[..|rows| - 1], toNumber) + [RowOutcome(rows[|rows| - 1], |rows| + 1, toNumber)]
  }

  /** The outcome at index k is the outcome of row k read as line k + 2. */
  lemma {:induction false} OutcomeAt(rows: seq<Row>, toNumber: string -> Number, k: nat)
    requires k < |rows|
    ensures Outcomes(rows, toNumber)[k] == RowOutcome(rows[k], k + 2, toNumber)
  {
    var init := rows[..|rows| - 1];
    if k < |rows| - 1 {
      OutcomeAt(init, toNumber, k);
      assert init[k] == rows[k];
    }
  }

  /** Row k succeeds iff its record conforms to the schema. */
  lemma OutcomeSucceedsIff(rows: seq<Row>, toNumber: string -> Number, k: nat)
    requires k < |rows|
    ensures Outcomes(rows, toNumber)[k].Success? <==> Conforms(CsvRecord(rows[k], toNumber))
  {
    OutcomeAt(rows, toNumber, k);
  }

  /** A passing row yields the product its record describes: the row's own values. */
  lemma OutcomeDescribesRow(rows: seq<Row>, toNumber: string -> Number, k: nat)
    requires k < |rows|
    ensures var o := Outcomes(rows, toNumber)[k];
      o.Success? ==> Conforms(CsvRecord(rows[k], toNumber)) && Describes(CsvRecord(rows[k], toNumber), o.value)
  {
    OutcomeAt(rows, toNumber, k);
  }

  /** The error entries among the outcomes, in order. */
  function Failures(os: seq<Result<Product, string>>): (es: seq<string>)
    ensures |es| <= |os|
  {
    if os == [] then []
    else Failures(os[..|os| - 1]) + (if os[|os| - 1].Failure? then [os[|os| - 1].error] else [])
  }

  /** The products among the outcomes, in order. */
  function Successes(os: seq<Result<Product, string>>): (ps: seq<Product>)
    ensures |ps| <= |os|
  {
    if os == [] then []
    else Successes(os[..|os| - 1]) + (if os[|os| - 1].Success? then [os[|os| - 1].value] else [])
  }

  /** Every outcome lands in exactly one of the two lists. */
  lemma {:induction false} PartitionCount(os: seq<Result<Product, string>>)
    ensures |Failures(os)| + |Successes(os)| == |os|
  {
    if os != [] { PartitionCount(os[..|os| - 1]); }
  }

  /** Both filters distribute over concatenation: earlier rows come first. */
  lemma {:induction false} FiltersAppend(a: seq<Result<Product, string>>, b: seq<Result<Product, string>>)
    ensures Failures(a + b) == Failures(a) + Failures(b)
    ensures Successes(a + b) == Successes(a) + Successes(b)
  {
    if b != [] {
      var init := b[..|b| - 1];
      assert (a + b)[..|a + b| - 1] == a + init;
      FiltersAppend(a, init);
    } else {
      assert a + b == a;
    }
  }

  /** No error entry iff every row validates. */
  lemma {:induction false} NoFailuresIff(os: seq<Result<Product, string>>)
    ensures Failures(os) == [] <==> forall k :: 0 <= k < |os| ==> os[k].Success?
  {
    if os != [] {
      NoFailuresIff(os[..|os| - 1]);
      assert forall k :: 0 <= k < |os| - 1 ==> os[..|os| - 1][k] == os[k];
    }
  }

  /** When every row validates, the products are the rows' products, in row order. */
  lemma {:induction false} AllSucceed(os: seq<Result<Product, string>>)
    requires forall k :: 0 <= k < |os| ==> os[k].Success?
    ensures Successes(os) == seq(|os|, k requires 0 <= k < |os| => os[k].value)
  {
    if os != [] {
      var init := os[..|os| - 1];
      AllSucceed(init);
      assert forall k :: 0 <= k < |init| ==> init[k] == os[k];
    }
  }

  /** A failing outcome's entry appears among the error entries. */
  lemma {:induction false} FailureListed(os: seq<Result<Product, string>>, k: nat)
    requires k < |os| && os[k].Failure?
    ensures os[k].error in Failures(os)
  {
    if k < |os| - 1 {
      FailureListed(os[..|os| - 1], k);
    }
  }

  /** A failing row's entry appears among the errors and is the error entry for line k + 2. */
  lemma FailingRowReported(rows: seq<Row>, toNumber: string -> Number, k: nat)
    requires k < |rows|
    requires !Conforms(CsvRecord(rows[k], toNumber))
    ensures var os := Outcomes(rows, toNumber);
      && os[k].Failure?
      && os[k].error in Failures(os)
      && os[k].error == RowError(k + 2, Issues(CsvRecord(rows[k], toNumber)))
  {
    OutcomeAt(rows, toNumber, k);
    FailureListed(Outcomes(rows, toNumber), k);
  }

  /** The products among well-formed outcomes are well-formed. */
  lemma {:induction false} SuccessesWellFormed(os: seq<Result<Product, string>>)
    requires forall k :: 0 <= k < |os| && os[k].Success? ==> WellFormed(os[k].value)
    ensures forall p :: p in Successes(os) ==> WellFormed(p)
  {
    if os != [] {
      SuccessesWellFormed(os[..|os| - 1]);
    }
  }

  /** Every product an import would store is well-formed. */
  lemma ImportedWellFormed(rows: seq<Row>, toNumber: string -> Number)
    ensures forall p :: p in Successes(Outcomes(rows, toNumber)) ==> WellFormed(p)
  {
    var os := Outcomes(rows, toNumber);
    forall k | 0 <= k < |os| && os[k].Success? ensures WellFormed(os[k].value) {
      OutcomeAt(rows, toNumber, k);
    }
    SuccessesWellFormed(os);
  }

  /** One more row extends exactly one of the two lists by that row's outcome. */
  lemma ScanStep(rows: seq<Row>, toNumber: string -> Number, i: nat)
    requires i < |rows|
    ensures var o := RowOutcome(rows[i], i + 2, toNumber);
      && Failures(Outcomes(rows[..i + 1], toNumber))
         == Failures(Outcomes(rows[..i], toNumber)) + (if o.Failure? then [o.error] else [])
      && Successes(Outcomes(rows[..i + 1], toNumber))
         == Successes(Outcomes(rows[..i], toNumber)) + (if o.Success? then [o.value] else [])
  {
    var prefix := rows[..i + 1];
    assert prefix[..i] == rows[..i] && prefix[i] == rows[i];
    var prev, next := Outcomes(rows[..i], toNumber), Outcomes(prefix, toNumber);
    assert next == prev + [RowOutcome(rows[i], i + 2, toNumber)];
    assert next[..|next| - 1] == prev;
  }

  /**
   * The 'data' phase of the import: one pass over the decoded rows with a
   * line counter, pushing each row to `errors` or to `results`.
   */
  method ScanRows(rows: seq<Row>, toNumber: string -> Number)
    returns (errors: seq<string>, results: seq<Product>, line: nat)
    ensures line == |rows| + 1
    ensures errors == Failures(Outcomes(rows, toNumber))
    ensures results == Successes(Outcomes(rows, toNumber))
    ensures |errors| + |results| == |rows|
  {
    errors, results, line := [], [], 1;
    var i := 0;
    while i < |rows|
      invariant 0 <= i <= |rows|
      invariant line == i + 1
      invariant errors == Failures(Outcomes(rows[..i], toNumber))
      invariant results == Successes(Outcomes(rows[..i], toNumber))
    {
      line := line + 1;
      var validation := SafeParse(CsvRecord(rows[i], toNumber));
      ScanStep(rows, toNumber, i);
      match validation {
        case Failure(issues) =>
          errors := errors + [RowError(line, issues)];
        case Success(p) =>
          results := results + [p];
      }
      i := i + 1;
    }
    assert rows[..i] == rows;
    PartitionCount(Outcomes(rows, toNumber));
  }

  /** The stored records of a successful batch: ids from `start` upwards. */
  function WithIds(ps: seq<Product>, start: nat): (rs: seq<StoredProduct>)
    ensures |rs| == |ps|
    ensures forall i :: 0 <= i < |rs| ==> rs[i].product == ps[i]
    ensures forall i :: 0 <= i < |rs| ==> start <= rs[i].id < start + |ps|
    ensures forall i, j :: 0 <= i < j < |rs| ==> rs[i].id < rs[j].id
  {
    seq(|ps|, i requires 0 <= i < |ps| => StoredProduct(start + i, ps[i]))
  }

  /** True when the request's image is set and non-empty (`if (imagem)`). */
  predicate HasImage(p: Product) {
    p.imagem.Some? && p.imagem.value != ""
  }

  /**
   * The checks a single create makes before it writes: the schema, then the
   * decoded image size. Success carries the product to store.
   */
  function CheckCreate(body: map<string, Value>, decodedSize: string -> nat): (r: Result<Product, Response>)
    ensures r.Success? <==>
      Conforms(body) && !(HasImage(SafeParse(body).value) && decodedSize(SafeParse(body).value.imagem.value) > MaxImageBytes)
    ensures r.Success? ==> WellFormed(r.value) && Describes(body, r.value)
    ensures !Conforms(body) ==> r == Failure(Response(422, IssueMessages(Issues(body))))
    ensures Conforms(body) && r.Failure? ==> r == Failure(Response(422, Errors([ImageTooLargeMessage])))
  {
    match SafeParse(body)
    case Failure(issues) => Failure(Response(422, IssueMessages(issues)))
    case Success(p) =>
      if HasImage(p) && decodedSize(p.imagem.value) > MaxImageBytes then
        Failure(Response(422, Errors([ImageTooLargeMessage])))
      else
        Success(p)
  }

  /** The size check lets exactly 2 MiB through and stops one byte more. */
  lemma ImageSizeBoundary(body: map<string, Value>, decodedSize: string -> nat)
    requires Conforms(body) && HasImage(SafeParse(body).value)
    ensures decodedSize(body["imagem"].s) == MaxImageBytes ==> CheckCreate(body, decodedSize).Success?
    ensures decodedSize(body["imagem"].s) == MaxImageBytes + 1 ==> CheckCreate(body, decodedSize).Failure?
  {
  }

  /** Every stored product is well-formed and ids are increasing and below the next free one. */
  predicate StoreInvariant(records: seq<StoredProduct>, nextId: nat) {
    && (forall i :: 0 <= i < |records| ==> records[i].id < nextId && WellFormed(records[i].product))
    && (forall i, j :: 0 <= i < j < |records| ==> records[i].id < records[j].id)
  }

  /** A batch of well-formed products stored with fresh ids keeps the invariant. */
  lemma BatchKeepsInvariant(records: seq<StoredProduct>, nextId: nat, ps: seq<Product>)
    requires StoreInvariant(records, nextId)
    requires forall p :: p in ps ==> WellFormed(p)
    ensures StoreInvariant(records + WithIds(ps, nextId), nextId + |ps|)
  {
    var batch := WithIds(ps, nextId);
    var all := records + batch;
    forall i | 0 <= i < |all| ensures all[i].id < nextId + |ps| && WellFormed(all[i].product) {
      if i >= |records| {
        assert all[i] == batch[i - |records|];
        assert ps[i - |records|] in ps;
      }
    }
    forall i, j | 0 <= i < j < |all| ensures all[i].id < all[j].id {
      if j >= |records| {
        assert all[j] == batch[j - |records|];
        if i >= |records| { assert all[i] == batch[i - |records|]; }
      }
    }
  }

  /** One well-formed product stored with the next id keeps the invariant. */
  lemma AddKeepsInvariant(records: seq<StoredProduct>, nextId: nat, p: Product)
    requires StoreInvariant(records, nextId)
    requires WellFormed(p)
    ensures StoreInvariant(records + [StoredProduct(nextId, p)], nextId + 1)
  {
    var all := records + [StoredProduct(nextId, p)];
    assert all[|records|] == StoredProduct(nextId, p);
    assert forall i :: 0 <= i < |records| ==> all[i] == records[i];
  }

  class Catalog {
    var records: seq<StoredProduct>
    var nextId: nat

    ghost predicate Valid()
      reads this
    {
      StoreInvariant(records, nextId)
    }

    constructor ()
      ensures Valid() && records == [] && nextId == 0
    {
      records, nextId := [], 0;
    }

    /** `getProducts`: every stored record, or 500 when the store fails. */
    method GetProducts(storeFails: bool) returns (resp: Response)
      requires Valid()
      ensures resp == if storeFails then Response(500, InternalError) else Response(200, Listing(records))
      ensures !storeFails ==> StoreInvariant(resp.body.products, nextId)
      ensures !storeFails ==> forall r :: r in resp.body.products ==> WellFormed(r.product)
    {
      if storeFails {
        resp := Response(500, InternalError);
      } else {
        resp := Response(200, Listing(records));
      }
    }

    /** `createProduct`: validate, cap the image, then store exactly one record. */
    method CreateProduct(body: map<string, Value>, decodedSize: string -> nat, storeFails: bool)
      returns (resp: Response)
      requires Valid()
      modifies this
      ensures Valid()
      ensures match CheckCreate(body, decodedSize)
        case Failure(rejection) =>
          resp == rejection && records == old(records) && nextId == old(nextId)
        case Success(p) =>
          if storeFails then
            resp == Response(500, InternalError) && records == old(records) && nextId == old(nextId)
          else
            && records == old(records) + [StoredProduct(old(nextId), p)]
            && nextId == old(nextId) + 1
            && resp == Response(200, Record(StoredProduct(old(nextId), p)))
    {
      var validation := SafeParse(body);
      if validation.Failure? {
        assert CheckCreate(body, decodedSize) == Failure(Response(422, IssueMessages(validation.error)));
        return Response(422, IssueMessages(validation.error));
      }
      var p := validation.value;
      if HasImage(p) {
        var imageSize := decodedSize(p.imagem.value);
        if imageSize > MaxImageBytes {
          assert CheckCreate(body, decodedSize) == Failure(Response(422, Errors([ImageTooLargeMessage])));
          return Response(422, Errors([ImageTooLargeMessage]));
        }
      }
      assert CheckCreate(body, decodedSize) == Success(p);
      if storeFails {
        return Response(500, InternalError);
      }
      var stored := StoredProduct(nextId, p);
      AddKeepsInvariant(records, nextId, p);
      records := records + [stored];
      nextId := nextId + 1;
      resp := Response(200, Record(stored));
    }

    /**
     * `importProducts`: scan every row, then all or nothing. Any failing row
     * rejects the batch with every error entry and nothing is written;
     * otherwise one batch write appends every product in row order.
     */
    method ImportProducts(file: Option<seq<Row>>, toNumber: string -> Number, storeFails: bool)
      returns (resp: Response)
      requires Valid()
      modifies this
      ensures Valid()
      ensures file.None? ==>
        resp == Response(400, Errors([NoFileMessage])) && records == old(records) && nextId == old(nextId)
      ensures file.Some? ==>
        var os := Outcomes(file.value, toNumber);
        if Failures(os) != [] then
          resp == Response(422, Errors(Failures(os))) && records == old(records) && nextId == old(nextId)
        else if storeFails then
          resp == Response(500, InternalError) && records == old(records) && nextId == old(nextId)
        else
          && records == old(records) + WithIds(Successes(os), old(nextId))
          && nextId == old(nextId) + |file.value|
          && resp == Response(200, NoContent)
    {
      if file.None? {
        return Response(400, Errors([NoFileMessage]));
      }
      var rows := file.value;
      var errors, results, line := ScanRows(rows, toNumber);
      if |errors| > 0 {
        return Response(422, Errors(errors));
      }
      if storeFails {
        return Response(500, InternalError);
      }
      ImportedWellFormed(rows, toNumber);
      BatchKeepsInvariant(records, nextId, results);
      var batch := WithIds(results, nextId);
      records := records + batch;
      nextId := nextId + |results|;
      resp := Response(200, NoContent);
    }
  }
}
