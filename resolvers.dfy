/**
  The book catalog and the two root query resolvers.

  The catalog is the fixed two-record list built once at start-up. Each record's
  `publishDate` is a `new Date()` clock reading; the two readings are parameters
  here. The resolvers receive the catalog as a value instead of reading a global,
  and neither of them looks at its parent value, arguments or context.
 */
module Resolvers {
  import opened DateScalar

  datatype Book = Book(title: string, author: string, publishDate: Date)

  /**
    The `date` argument of `bookByDate` as the engine hands it over: a `Date`
    built by `__parseValue` when it came through a variable, or the plain
    integer `__parseLiteral` gave for an inline literal.
   */
  datatype DateArgument = FromVariable(date: Date) | FromLiteral(ms: int)

  /** The arguments of `bookByDate`; the `date` argument is nullable and may be absent. */
  datatype Args = Args(date: Option<DateArgument>)

  /**
    The catalog, in insertion order; `t0` and `t1` are the clock readings taken
    when the two records were built.
   */
  function Catalog(t0: TimeValue, t1: TimeValue): (books: seq<Book>)
    ensures |books| == 2
    ensures books[0].title == "Harry Potter and the Sorcerer's stone" && books[0].author == "J.K. Rowling"
    ensures books[1].title == "Jurassic Park" && books[1].author == "Michael Crichton"
    ensures books[0].publishDate == Date(t0) && books[1].publishDate == Date(t1)
  {
    [ Book("Harry Potter and the Sorcerer's stone", "J.K. Rowling", Date(t0)),
      Book("Jurassic Park", "Michael Crichton", Date(t1)) ]
  }

  /** `Query.books`: the whole catalog, unfiltered and in storage order. */
  function Books(catalog: seq<Book>): (r: seq<Book>)
    ensures r == catalog
  {
    catalog
  }

  /**
    `Query.bookByDate`: whatever the parent value, the arguments (the `date`
    included) and the context, the result is the one `Query.books` gives.
   */
  function BookByDate<Root, Context>(catalog: seq<Book>, root: Root, args: Args, ctx: Context): (r: seq<Book>)
    ensures r == Books(catalog)
  {
    catalog
  }

  /**
    `bookByDate` performs no filtering: asked for a date that is neither
    record's `publishDate`, it still returns both records.
   */
  lemma BookByDateDoesNotFilter<Root, Context>(t0: TimeValue, t1: TimeValue, d: Date, root: Root, ctx: Context)
    requires d != Date(t0) && d != Date(t1)
    ensures var r := BookByDate(Catalog(t0, t1), root, Args(Some(FromVariable(d))), ctx);
      |r| == 2 && r[0].publishDate != d && r[1].publishDate != d
  {
  }

  /**
    Every date the catalog hands out serializes to a number: the timestamp of
    the clock reading it was built from, never NaN.
   */
  lemma CatalogDatesSerialize(t0: TimeValue, t1: TimeValue)
    ensures var books := Books(Catalog(t0, t1));
      Serialize(books[0].publishDate) == Integral(t0) && Serialize(books[1].publishDate) == Integral(t1)
  {
  }
}
