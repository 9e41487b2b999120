# Custom `Date` scalar and book resolvers

This project models the core of a small GraphQL server written in JavaScript
(`src/custom-scalar-type/server.js`). The server exposes a fixed two-book catalog
through two root query fields, `books` and `bookByDate(date: Date)`. It also
defines a custom scalar `Date`, whose three coercion functions convert dates at
the client/server boundary:

- `__serialize` turns an outbound `Date` into its millisecond timestamp.
- `__parseValue` turns a `date` supplied through query variables into a `Date`.
- `__parseLiteral` turns an inline literal of the query text into a plain integer
  when the literal is an integer, and into `null` otherwise.

The model is pure, as the source is. It has three modules:

- `Decimal` defines the text of a GraphQL integer literal (section 2.9.1 of the
  GraphQL specification, October 2021). It defines `parseInt(text, 10)` on that
  text and the printer that inverts it, and proves both round trips.
- `DateScalar` models a JavaScript `Date` by its time value. That value is a
  whole number of milliseconds within ±8.64e15, the range of section 21.4.1.1 of
  ECMA-262. A value outside that range gives the invalid date. The module also
  holds the three coercions.
- `Resolvers` holds the `Book` record, the catalog and the two resolvers. The
  catalog is passed to the resolvers as a value. The two `new Date()` clock
  readings that stamp the records are parameters.

Two behaviours of the source are kept as written, not corrected:

- `bookByDate` ignores its argument and returns the whole catalog.
- The literal path returns a plain integer, not a `Date`. In the model,
  `ParseLiteral` yields `Option<int>` while `ParseValue` yields a `Date`. The
  `date` argument of `bookByDate` is therefore either a `Date` or an integer.

## Model

| member | source | states |
|---|---|---|
| `DateScalar.Serialize` | src/custom-scalar-type/server.js:67-69 | the outbound value is exactly the date's millisecond time value; it is NaN exactly for an invalid date |
| `DateScalar.ParseValue` | src/custom-scalar-type/server.js:63-65 | `new Date(n)` is valid exactly when `n` lies in the ECMAScript time range; then serializing it gives back `n`, otherwise NaN |
| `DateScalar.SerializeThenParse` | src/custom-scalar-type/server.js:63-69 | a valid date, serialized and then parsed as a variable, is the same date |
| `DateScalar.ParseLiteral` | src/custom-scalar-type/server.js:70-75 | the result is non-null exactly for an `INT` literal; its integer prints back as the literal's text (except for `-0`) and is negative exactly when the text is a minus sign before a non-zero numeral |
| `DateScalar.ParseLiteralOfInt` | src/custom-scalar-type/server.js:70-73 | every integer, written as an `INT` literal, parses back to itself |
| `DateScalar.LiteralOutsideTimeRange` | src/custom-scalar-type/server.js:63-73 | outside the time range an inline integer is still accepted as that number, while the same number as a variable gives an invalid date |
| `Decimal.ParseIntLiteral` | src/custom-scalar-type/server.js:72 | `parseInt(text, 10)` on integer-literal text: the printed form of the result is the text itself (except for `-0`), and the result is negative exactly when the text starts with `-` and is not `-0` |
| `Decimal.Numeral` | src/custom-scalar-type/server.js:72 | the printed numeral of a natural number is a valid numeral and denotes that number |
| `Decimal.IntToLiteral` | src/custom-scalar-type/server.js:72 | the printed form of any integer is a valid integer literal that starts with `-` exactly for negative numbers |
| `Decimal.NumeralCanonical` | src/custom-scalar-type/server.js:72 | a numeral without superfluous leading zeros is the printed form of the number it denotes |
| `Decimal.LeadingDigitPositive` | src/custom-scalar-type/server.js:72 | a numeral whose first digit is not `0` denotes a positive number |
| `Decimal.LiteralRoundTrip` | src/custom-scalar-type/server.js:72 | parsing the printed form of any integer gives that integer |
| `Resolvers.Catalog` | src/custom-scalar-type/server.js:7-18 | the catalog has two records in order: "Harry Potter and the Sorcerer's stone" by J.K. Rowling, then "Jurassic Park" by Michael Crichton, each dated by its own clock reading |
| `Resolvers.Books` | src/custom-scalar-type/server.js:37 | `books` returns the catalog itself, unfiltered and in order |
| `Resolvers.BookByDate` | src/custom-scalar-type/server.js:38 | `bookByDate` returns what `books` returns, for every parent value, argument and context |
| `Resolvers.BookByDateDoesNotFilter` | src/custom-scalar-type/server.js:38 | asked for a date that matches neither record, `bookByDate` still returns both records |
| `Resolvers.CatalogDatesSerialize` | src/custom-scalar-type/server.js:67-69 | every `publishDate` that `books` hands out serializes to the number of its clock reading, never to NaN |

## Left out

- The Express application, body parsing, the `/graphql` and `/graphiql` endpoints, `app.listen(3000)` and the console message. These are HTTP I/O.
- The SDL string and `makeExecutableSchema`. The schema library parses and executes queries, which is not visible here. This includes what the engine does with a `null` from `__parseLiteral`.
- The clock. Each `new Date()` reading of the catalog is a parameter of `Resolvers.Catalog`.
- `__parseValue` given a string or any non-integer value. Date-string parsing belongs to the JavaScript platform and is not visible here. The model takes integer milliseconds only.
- Fractional numbers, `-0` and other floating-point behaviour of `Date` and `parseInt`. In particular, `parseInt("-0", 10)` is JavaScript's negative zero, but the model gives `0`.
- `DateScalar.ParseLiteral`: it requires an `INT` node to carry integer-literal text, as the GraphQL lexer guarantees. `parseInt`'s prefix parsing of other text cannot be reached and is not modelled.
- `DateScalar.ParseLiteral`: the integer is exact. JavaScript rounds literals beyond 2^53 in magnitude to the nearest double; the model does not.
- The commented-out `GraphQLScalarType` form of the scalar (src/custom-scalar-type/server.js:41-59). Its bodies are the same as the active `Date` resolver's, so the model covers them once.
- Immutability of the catalog holds by construction. The resolvers take the catalog as a value and return it unchanged. The source hands every caller the same array object, and that aliasing is not modelled.
