/**
 * The Order document schema: which paths are required, the defaults
 * filled in when a document is built, the closed `status` enumeration,
 * the numeric bounds on `progress` and `quantity`, and the unique index
 * on `orderId`.  A document is a value; validation reports the set of
 * violated rules, as the schema's validators do, and saving into a
 * collection runs defaults, then validation, then the unique index.
 */
module Order {
  import opened Wrappers

  /** A point in time in milliseconds since the epoch, as a Date holds it. */
  type Timestamp = int

  /** An opaque reference to another document (a user or a product). */
  type ObjectId = string

  /** The sub-document describing the buyer. */
  datatype Customer = Customer(name: Option<string>, email: Option<string>, userId: Option<ObjectId>)

  /** The sub-document describing the product ordered. */
  datatype Product = Product(name: Option<string>, productId: Option<ObjectId>, price: Option<real>, category: Option<string>)

  /** An order document; every path may be absent before defaults and validation. */
  datatype OrderDoc = OrderDoc(
    orderId: Option<string>,
    customer: Customer,
    product: Product,
    status: Option<string>,
    orderDate: Option<Timestamp>,
    estimatedDelivery: Option<Timestamp>,
    actualDelivery: Option<Timestamp>,
    progress: Option<real>,
    quantity: Option<real>,
    totalAmount: Option<real>)

  /** The schema paths that carry a validator. */
  datatype Path =
    | OrderIdPath | CustomerNamePath | CustomerEmailPath
    | ProductNamePath | ProductPricePath | ProductCategoryPath
    | StatusPath | ProgressPath | QuantityPath | TotalAmountPath

  /** One failed validator, tagged with the path it guards. */
  datatype Violation =
    | Required(path: Path)
    | NotInEnum(path: Path)
    | BelowMin(path: Path)
    | AboveMax(path: Path)

  /** Why a save was refused. */
  datatype SaveError =
    | ValidationFailed(violations: set<Violation>)
    | DuplicateKey(orderId: Option<string>)

  // ---------------------------------------------------------------------
  // The status enumeration
  // ---------------------------------------------------------------------

  /** The values the `status` path may take. */
  datatype Status = Pending | Approved | Processing | Shipped | Delivered | Rejected

  /** The enumeration as the schema lists it, in its order. */
  const StatusNames: seq<string> := ["Pending", "Approved", "Processing", "Shipped", "Delivered", "Rejected"]

  const DefaultStatus: string := StatusName(Pending)
  const DefaultProgress: real := 0.0
  const DefaultQuantity: real := 1.0
  const MinProgress: real := 0.0
  const MaxProgress: real := 100.0
  const MinQuantity: real := 1.0

  /** The stored spelling of a status. */
  function StatusName(s: Status): (name: string)
    ensures name in StatusNames
  {
    match s
    case Pending => "Pending"
    case Approved => "Approved"
    case Processing => "Processing"
    case Shipped => "Shipped"
    case Delivered => "Delivered"
    case Rejected => "Rejected"
  }

  /** Reads a stored status back; None for any string outside the enumeration. */
  function ParseStatus(name: string): (r: Option<Status>)
    ensures r.Some? <==> name in StatusNames
    ensures r.Some? ==> StatusName(r.value) == name
  {
    if name == "Pending" then Some(Pending)
    else if name == "Approved" then Some(Approved)
    else if name == "Processing" then Some(Processing)
    else if name == "Shipped" then Some(Shipped)
    else if name == "Delivered" then Some(Delivered)
    else if name == "Rejected" then Some(Rejected)
    else None
  }

  /** Every status survives being stored and read back. */
  lemma ParseStatusName(s: Status)
    ensures ParseStatus(StatusName(s)) == Some(s)
  {
  }

  // ---------------------------------------------------------------------
  // Defaults
  // ---------------------------------------------------------------------

  /** A default fills a path only when it was left absent. */
  function OrElse<T>(v: Option<T>, default: T): Option<T> {
    match v
    case Some(_) => v
    case None => Some(default)
  }

  /**
   * The schema defaults applied to a new document: `status`, `orderDate`
   * (the clock reading `now`), `progress` and `quantity`.
   */
  function ApplyDefaults(o: OrderDoc, now: Timestamp): (d: OrderDoc)
    ensures d.status.Some? && d.orderDate.Some? && d.progress.Some? && d.quantity.Some?
  {
    o.(status := OrElse(o.status, DefaultStatus),
       orderDate := OrElse(o.orderDate, now),
       progress := OrElse(o.progress, DefaultProgress),
       quantity := OrElse(o.quantity, DefaultQuantity))
  }

  // ---------------------------------------------------------------------
  // Validation
  // ---------------------------------------------------------------------

  /** A required String path: present and not the empty string. */
  predicate PresentString(v: Option<string>) {
    v.Some? && v.value != ""
  }

  /** The `min` validator; an absent value passes. */
  function CheckMin(p: Path, v: Option<real>, min: real): set<Violation> {
    if v.Some? && v.value < min then {BelowMin(p)} else {}
  }

  /** The `max` validator; an absent value passes. */
  function CheckMax(p: Path, v: Option<real>, max: real): set<Violation> {
    if v.Some? && v.value > max then {AboveMax(p)} else {}
  }

  /** The `enum` validator of `status`; an absent value passes. */
  function CheckEnum(p: Path, v: Option<string>): set<Violation> {
    if v.Some? && v.value !in StatusNames then {NotInEnum(p)} else {}
  }

  /**
   * Whether a path's value is missing in the sense of its `required`
   * validator: a String must be present and non-empty, a Number present.
   * Paths without a `required` validator are never missing.
   */
  predicate Missing(o: OrderDoc, p: Path) {
    match p
    case OrderIdPath => !PresentString(o.orderId)
    case CustomerNamePath => !PresentString(o.customer.name)
    case CustomerEmailPath => !PresentString(o.customer.email)
    case ProductNamePath => !PresentString(o.product.name)
    case ProductPricePath => o.product.price.None?
    case ProductCategoryPath => !PresentString(o.product.category)
    case TotalAmountPath => o.totalAmount.None?
    case StatusPath | ProgressPath | QuantityPath => false
  }

  /** The `required` validators: one `Required` violation for each required path whose value is missing. */
  function MissingRequired(o: OrderDoc): (r: set<Violation>)
    ensures forall v :: v in r ==> v.Required? && v.path in RequiredPaths
  {
    set p | p in RequiredPaths && Missing(o, p) :: Required(p)
  }

  /** The `enum`, `min` and `max` validators. */
  function OutOfRange(o: OrderDoc): (r: set<Violation>)
    ensures forall v :: v in r ==> !v.Required?
  {
    CheckEnum(StatusPath, o.status)
    + CheckMin(ProgressPath, o.progress, MinProgress)
    + CheckMax(ProgressPath, o.progress, MaxProgress)
    + CheckMin(QuantityPath, o.quantity, MinQuantity)
  }

  /** Every validator of the schema, run over the whole document. */
  function Violations(o: OrderDoc): set<Violation> {
    MissingRequired(o) + OutOfRange(o)
  }

  /** A document that passes every validator. */
  predicate Valid(o: OrderDoc) {
    Violations(o) == {}
  }

  /** The seven required paths. */
  const RequiredPaths: set<Path> :=
    {OrderIdPath, CustomerNamePath, CustomerEmailPath, ProductNamePath,
     ProductPricePath, ProductCategoryPath, TotalAmountPath}

  /** Validity spelled out rule by rule. */
  lemma ValidIff(o: OrderDoc)
    ensures Valid(o) <==>
      PresentString(o.orderId) && PresentString(o.customer.name) && PresentString(o.customer.email) &&
      PresentString(o.product.name) && o.product.price.Some? && PresentString(o.product.category) &&
      o.totalAmount.Some? &&
      (o.status.Some? ==> ParseStatus(o.status.value).Some?) &&
      (o.progress.Some? ==> MinProgress <= o.progress.value <= MaxProgress) &&
      (o.quantity.Some? ==> MinQuantity <= o.quantity.value)
  {
  }

  /** Only the seven required paths can report a missing value. */
  lemma RequiredViolationPaths(o: OrderDoc, p: Path)
    requires Required(p) in Violations(o)
    ensures p in RequiredPaths
  {
  }

  /** A required path fails its validator exactly when its value is missing. */
  lemma RequiredIff(o: OrderDoc, p: Path)
    ensures Required(p) in Violations(o) <==> p in RequiredPaths && Missing(o, p)
  {
  }

  /** A document missing any required path is invalid, with a violation on a missing required path. */
  lemma MissingRequiredInvalid(o: OrderDoc)
    requires !PresentString(o.orderId) || !PresentString(o.customer.name) ||
             !PresentString(o.customer.email) || !PresentString(o.product.name) ||
             o.product.price.None? || !PresentString(o.product.category) || o.totalAmount.None?
    ensures !Valid(o)
    ensures exists p :: p in RequiredPaths && Missing(o, p) && Required(p) in Violations(o)
  {
  }

  /** `status` fails its validator exactly when it holds a string outside the enumeration. */
  lemma StatusEnumIff(o: OrderDoc)
    ensures NotInEnum(StatusPath) in Violations(o) <==> o.status.Some? && ParseStatus(o.status.value).None?
  {
  }

  /** `progress` fails a validator exactly when it is present and outside 0..100. */
  lemma ProgressBoundsIff(o: OrderDoc)
    ensures (BelowMin(ProgressPath) in Violations(o) || AboveMax(ProgressPath) in Violations(o)) <==>
      o.progress.Some? && !(MinProgress <= o.progress.value <= MaxProgress)
  {
  }

  /** `quantity` fails its validator exactly when it is present and below 1. */
  lemma QuantityBoundIff(o: OrderDoc)
    ensures BelowMin(QuantityPath) in Violations(o) <==> o.quantity.Some? && o.quantity.value < MinQuantity
  {
  }

  /** The optional paths never affect validity, whatever they hold or if they are absent. */
  lemma OptionalPathsIrrelevant(o: OrderDoc, userId: Option<ObjectId>, productId: Option<ObjectId>,
                                estimatedDelivery: Option<Timestamp>, actualDelivery: Option<Timestamp>)
    ensures Violations(o.(customer := o.customer.(userId := userId),
                          product := o.product.(productId := productId),
                          estimatedDelivery := estimatedDelivery,
                          actualDelivery := actualDelivery)) == Violations(o)
  {
  }

  /** Defaults fill only absent paths: supplied values and every other path are untouched. */
  lemma ApplyDefaultsKeepsSupplied(o: OrderDoc, now: Timestamp)
    ensures var d := ApplyDefaults(o, now);
      (o.status.Some? ==> d.status == o.status) &&
      (o.orderDate.Some? ==> d.orderDate == o.orderDate) &&
      (o.progress.Some? ==> d.progress == o.progress) &&
      (o.quantity.Some? ==> d.quantity == o.quantity) &&
      d.orderId == o.orderId && d.customer == o.customer && d.product == o.product &&
      d.estimatedDelivery == o.estimatedDelivery && d.actualDelivery == o.actualDelivery &&
      d.totalAmount == o.totalAmount
  {
  }

  /** Absent defaulted paths receive Pending, the clock reading, 0 and 1. */
  lemma ApplyDefaultsFillsAbsent(o: OrderDoc, now: Timestamp)
    ensures var d := ApplyDefaults(o, now);
      (o.status.None? ==> d.status == Some(StatusName(Pending))) &&
      (o.orderDate.None? ==> d.orderDate == Some(now)) &&
      (o.progress.None? ==> d.progress == Some(0.0)) &&
      (o.quantity.None? ==> d.quantity == Some(1.0))
  {
  }

  /** Applying defaults twice, even at another time, is the same as applying them once. */
  lemma ApplyDefaultsIdempotent(o: OrderDoc, now: Timestamp, later: Timestamp)
    ensures ApplyDefaults(ApplyDefaults(o, now), later) == ApplyDefaults(o, now)
  {
  }

  /** Every default satisfies its own path's validators, so defaults neither add nor remove a violation. */
  lemma ApplyDefaultsPreservesViolations(o: OrderDoc, now: Timestamp)
    ensures Violations(ApplyDefaults(o, now)) == Violations(o)
  {
  }

  // ---------------------------------------------------------------------
  // The collection and its unique index on orderId
  // ---------------------------------------------------------------------

  /** No two documents of the collection share an `orderId` (absent counts as a value, as in a unique index). */
  predicate UniqueOrderIds(docs: seq<OrderDoc>) {
    forall i, j :: 0 <= i < j < |docs| ==> docs[i].orderId != docs[j].orderId
  }

  /** A collection whose every document passed validation and whose index holds. */
  predicate CollectionValid(docs: seq<OrderDoc>) {
    UniqueOrderIds(docs) && forall i :: 0 <= i < |docs| ==> Valid(docs[i])
  }

  /** Whether some stored document already carries the key. */
  predicate HasOrderId(docs: seq<OrderDoc>, id: Option<string>) {
    exists i :: 0 <= i < |docs| && docs[i].orderId == id
  }

  /**
   * Saving a new document: defaults are applied, the validators run, and
   * the unique index on `orderId` refuses a key already stored.
   */
  function Insert(docs: seq<OrderDoc>, o: OrderDoc, now: Timestamp): (r: Result<seq<OrderDoc>, SaveError>)
    ensures r.Ok? ==> |r.value| == |docs| + 1 && r.value[..|docs|] == docs
    ensures r.Ok? ==> Valid(r.value[|docs|])
    ensures r.Err? && r.error.ValidationFailed? ==> r.error.violations != {}
    ensures r.Ok? ==> r.value == docs + [ApplyDefaults(o, now)]
    ensures !Valid(o) ==> r == Err(ValidationFailed(Violations(o)))
    ensures Valid(o) && HasOrderId(docs, o.orderId) ==> r == Err(DuplicateKey(o.orderId))
  {
    ApplyDefaultsPreservesViolations(o, now);
    var d := ApplyDefaults(o, now);
    if !Valid(d) then Err(ValidationFailed(Violations(d)))
    else if HasOrderId(docs, d.orderId) then Err(DuplicateKey(d.orderId))
    else Ok(docs + [d])
  }

  /** A save succeeds exactly when the defaulted document is valid and its key is new. */
  lemma InsertOkIff(docs: seq<OrderDoc>, o: OrderDoc, now: Timestamp)
    ensures Insert(docs, o, now).Ok? <==> Valid(o) && !HasOrderId(docs, o.orderId)
  {
  }

  /** A document whose `orderId` is already stored is never saved. */
  lemma InsertDuplicateRejected(docs: seq<OrderDoc>, o: OrderDoc, now: Timestamp)
    requires HasOrderId(docs, o.orderId)
    ensures Insert(docs, o, now).Err?
    ensures Valid(o) ==> Insert(docs, o, now) == Err(DuplicateKey(o.orderId))
  {
  }

  /** Saving keeps the collection valid and its `orderId`s unique, and stores the defaulted document last. */
  lemma InsertPreservesCollectionValid(docs: seq<OrderDoc>, o: OrderDoc, now: Timestamp)
    requires CollectionValid(docs)
    requires Insert(docs, o, now).Ok?
    ensures CollectionValid(Insert(docs, o, now).value)
    ensures Insert(docs, o, now).value == docs + [ApplyDefaults(o, now)]
  {
  }
}
