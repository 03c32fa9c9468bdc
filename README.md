# Order schema and product-identifier model

This project models the two pieces of logic in the marketplace server that
are more than framework wiring:

- **Product identifiers** (`ProductId`, `product_id.dfy`). `generateProductId`
  draws four random bytes, renders them as lowercase hexadecimal, upper-cases
  the text and prefixes `PROD-`. The random bytes are a parameter of
  `GenerateProductId`. The rest is a deterministic encoder. The model keeps the
  source's pipeline: `ToHex` stands for `Buffer.toString("hex")` and
  `ToUpperCase` for `String.toUpperCase`. A decoder, `ParseProductId`, is its
  partner. The proofs show the format (`PROD-` then eight digits from `0-9A-F`),
  the length 13, the position of each nibble, the round trip in both directions,
  injectivity, and that every well-formed identifier has a preimage.
- **The Order schema** (`Order`, `order.dfy`). A document is an `OrderDoc`
  value. Each path that may be absent is an `Option`. `ApplyDefaults` fills
  `status`, `orderDate`, `progress` and `quantity`. `Violations` runs every
  validator: `required`, the `status` enum, and the `min`/`max` bounds. `Valid`
  holds when no validator fails. `Insert` models a save into a collection: it
  applies the defaults, then validates, then enforces the unique index on
  `orderId`.

Modelling choices:

- A required `String` path must be present and non-empty. This is how the
  schema library's `required` validator treats strings. A required `Number`
  path only has to be present.
- `min`, `max` and `enum` validators pass when the value is absent.
- The unique index compares `orderId` values as stored. An absent id counts as
  a value too, so two documents without an id would also collide. Validation
  runs before the index is consulted, so an invalid duplicate is reported as a
  validation failure.
- `Number` paths are `real`. They are only compared against bounds.
- `Date` paths are integer millisecond timestamps. The `Date.now` default of
  `orderDate` is the parameter `now` of `ApplyDefaults`.

The schema's `status` enumeration lists exactly `Pending`, `Approved`,
`Processing`, `Shipped`, `Delivered` and `Rejected`, and defaults to `Pending`.
It constrains membership only; the schema defines no transitions between
statuses.

## Model

| member | source | states |
|---|---|---|
| `ProductId.GenerateProductId` | index.js:22-25 | total on every 4-byte input; the result has the identifier shape (`PROD-` prefix, length 13 = 5 + 2 per byte, only `0-9A-F` after the prefix) |
| `ProductId.ToHex` | index.js:23 | the hex rendering has two characters per byte, all lowercase hex digits |
| `ProductId.ToUpperCase` | index.js:23 | upper-casing keeps the length, leaves no lowercase letter, keeps every character that is not a lowercase letter, and turns each lowercase hex digit into the upper-case digit of the same value |
| `ProductId.UpperDigit` | index.js:23 | upper-casing a lowercase hex digit gives the upper-case digit of the same value |
| `ProductId.EncodeUpper` | index.js:23 | the upper-cased hex text has two characters per byte, all from `0-9A-F` |
| `ProductId.NoLowercaseDigits` | index.js:23 | no character after the prefix is a lowercase hex digit |
| `ProductId.EncodeUpperCons` | index.js:23 | the encoding of a byte sequence is the two digits of its first byte followed by the encoding of the rest |
| `ProductId.Lo` | index.js:23 | a byte is 16 times its high nibble plus its low nibble, both below 16 |
| `ProductId.ToHexAt` | index.js:23 | characters 2i and 2i+1 of the lowercase rendering are the high and low nibble of byte i |
| `ProductId.EncodeUpperAt` | index.js:23 | characters 2i and 2i+1 of the encoding are the high and low nibble of byte i |
| `ProductId.GenerateProductIdNibbles` | index.js:23-24 | characters 2i and 2i+1 after the prefix are the high and low nibble of random byte i, in byte order |
| `ProductId.HexValue` | index.js:23 | a character has a value exactly when it is an upper-case hex digit, and the value indexes back to that digit |
| `ProductId.FromNibbles` | index.js:23 | the byte rebuilt from two digit values has exactly those high and low nibbles |
| `ProductId.DecodeHex` | index.js:23 | a successful decode yields one byte per two characters |
| `ProductId.ParseProductId` | index.js:22-25 | a successful parse yields exactly four bytes |
| `ProductId.DecodeEncodeHex` | index.js:23 | decoding the upper-case encoding of any byte sequence returns that sequence |
| `ProductId.EncodeDecodeHex` | index.js:23 | re-encoding a successfully decoded string reproduces the string |
| `ProductId.DecodeHexTotal` | index.js:23 | every even-length string of upper-case hex digits decodes |
| `ProductId.ParseGenerate` | index.js:22-25 | parsing a generated identifier returns the random bytes it was made from |
| `ProductId.GenerateParse` | index.js:22-25 | any string that parses is exactly the identifier generated from the parsed bytes |
| `ProductId.GenerateInjective` | index.js:22-25 | distinct 4-byte inputs give distinct identifiers |
| `ProductId.ProductIdHasPreimage` | index.js:22-25 | every string of the identifier shape parses and is generated by some 4-byte input |
| `Order.StatusName` | models/Order.js:20-22 | every status is stored as one of the six enumerated strings |
| `Order.ParseStatus` | models/Order.js:20-22 | a string reads as a status exactly when it is one of the six enumerated strings, and reads back to that string |
| `Order.ParseStatusName` | models/Order.js:20-22 | storing a status and reading it back gives the same status |
| `Order.ApplyDefaults` | models/Order.js:20-41 | after defaults, `status`, `orderDate`, `progress` and `quantity` are all present |
| `Order.ApplyDefaultsFillsAbsent` | models/Order.js:23-39 | absent `status`, `orderDate`, `progress` and `quantity` become `Pending`, the clock reading, 0 and 1 |
| `Order.ApplyDefaultsKeepsSupplied` | models/Order.js:20-41 | defaults never overwrite a supplied value and leave every other path untouched |
| `Order.ApplyDefaultsIdempotent` | models/Order.js:20-41 | applying defaults twice, even at a later time, equals applying them once |
| `Order.ApplyDefaultsPreservesViolations` | models/Order.js:20-41 | each default satisfies its own validators, so defaults add no violation (`Pending`, 0 and 1 are in range) |
| `Order.Missing` | models/Order.js:4-44 | a required String path is missing when absent or empty, a required Number path when absent, any other path never; its meaning for validation is stated by `RequiredIff` |
| `Order.MissingRequired` | models/Order.js:4-44 | the `required` validators only report `Required` violations, on the seven required paths |
| `Order.CheckEnum` | models/Order.js:20-22 | the `enum` validator; `StatusEnumIff` states when it fails |
| `Order.CheckMin` | models/Order.js:31-41 | the `min` validator, skipped for an absent value; `ProgressBoundsIff` and `QuantityBoundIff` state when it fails |
| `Order.CheckMax` | models/Order.js:31-36 | the `max` validator, skipped for an absent value; `ProgressBoundsIff` states when it fails |
| `Order.Violations` | models/Order.js:3-45 | every validator of the schema over one document; `RequiredIff`, `StatusEnumIff`, `ProgressBoundsIff` and `QuantityBoundIff` fix its contents path by path |
| `Order.Valid` | models/Order.js:3-45 | a document that passes every validator; `ValidIff` spells the condition out rule by rule |
| `Order.OutOfRange` | models/Order.js:20-41 | the `enum`, `min` and `max` validators never report a missing value |
| `Order.ValidIff` | models/Order.js:3-45 | a document is valid exactly when the seven required paths are present, `status` is absent or enumerated, `progress` is absent or in 0..100, and `quantity` is absent or at least 1 |
| `Order.RequiredIff` | models/Order.js:4-44 | a path reports `Required` exactly when it is one of the seven required paths and its own value is missing |
| `Order.MissingRequiredInvalid` | models/Order.js:4-44 | a document missing `orderId`, `customer.name`, `customer.email`, `product.name`, `product.price`, `product.category` or `totalAmount` is invalid, with a `Required` violation on a required path that is missing |
| `Order.RequiredViolationPaths` | models/Order.js:4-44 | only the seven required paths can report a missing value |
| `Order.StatusEnumIff` | models/Order.js:20-24 | `status` fails its validator exactly when it holds a string outside the enumeration |
| `Order.ProgressBoundsIff` | models/Order.js:31-36 | `progress` fails a validator exactly when it is present and outside 0..100 |
| `Order.QuantityBoundIff` | models/Order.js:37-41 | `quantity` fails its validator exactly when it is present and below 1 |
| `Order.OptionalPathsIrrelevant` | models/Order.js:9-30 | `customer.userId`, `product.productId`, `estimatedDelivery` and `actualDelivery` never affect validation, present or absent |
| `Order.Insert` | models/Order.js:3-45 | a successful save appends exactly the defaulted document after the stored ones, and it is valid; an invalid document is refused with exactly its own violations (validation runs before the unique index); a valid document whose `orderId` is stored is refused as a duplicate key |
| `Order.InsertOkIff` | models/Order.js:3-8 | a save succeeds exactly when the document is valid and its `orderId` is not already stored |
| `Order.InsertDuplicateRejected` | models/Order.js:4-7 | a document whose `orderId` is already stored is refused, as a duplicate key when it is otherwise valid |
| `Order.UniqueOrderIds` | models/Order.js:4-7 | no two stored documents share an `orderId`; `InsertPreservesCollectionValid` proves saving keeps it |
| `Order.HasOrderId` | models/Order.js:4-7 | some stored document already carries the key; `InsertOkIff` and `InsertDuplicateRejected` tie it to refusal |
| `Order.CollectionValid` | models/Order.js:3-45 | every stored document is valid and the unique index holds; `InsertPreservesCollectionValid` proves saving keeps it |
| `Order.InsertPreservesCollectionValid` | models/Order.js:3-8 | saving keeps every stored document valid and all `orderId`s unique, and stores the defaulted document last |

## Left out

- Random number generation: the four bytes from `crypto.randomBytes` are a parameter, so uniqueness of generated identifiers is not a property of the model.
- `ProductId.ToUpperCase`: only ASCII letters are upper-cased. Full Unicode case mapping is left out because the hexadecimal text contains only ASCII.
- HTTP wiring: the application set-up, CORS, JSON and cookie middleware, the root route and the listener are transport plumbing.
- Identity provider set-up: the Firebase Admin initialisation and the service-account file are external calls.
- Database access: the MongoDB client, the connection string, `run` and the ping command are I/O against a store the model cannot see. The collection is a sequence of documents.
- The token-verification middleware and the HTTP routes of index.js are not modelled.
- `Order.ApplyDefaults`: an explicit `null` on a path is modelled as absent (`None`). The schema library fills a default only for an undefined path and stores an explicit `null` as is; the model stores the default instead. The validity verdict is the same in both cases, because the `enum`, `min` and `max` validators skip `null`; only the stored value differs.
- The `timestamps` option adds `createdAt` and `updatedAt` from the clock on save. These two paths are not modelled.
- Floating-point semantics of `Number` paths: values are reals, used only for bound checks.
- Type casting by the schema library is left out. Each path already holds a value of its declared type.
- `ObjectId` references are opaque strings. Nothing checks that the referenced user or product exists, and neither does the schema.
- The model registration at models/Order.js:50 is a library call.
