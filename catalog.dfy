/** The catalog side of the handler: the search URL it builds for a term, the
    shape of the records the catalog returns, and the projection of a record
    onto the product the front end shows. */
module Catalog {

  import opened Options

  /** The fixed parts of the public catalog search endpoint. */
  const Environment := "vtexcommercestable.com.br"
  const SearchPath := "/api/catalog_system/pub/products/search/"
  const FirstPage := "?_from=0&_to=3"

  /** Everything in a search URL that comes before the encoded term. */
  function UrlPrefix(account: string): string {
    "https://" + account + "." + Environment + SearchPath
  }

  /** The URL requested for one term, given the account and the term as
      `encodeURIComponent` escapes it. */
  function SearchUrl(account: string, encodedTerm: string): (url: string)
    ensures |url| == |UrlPrefix(account)| + |encodedTerm| + |FirstPage|
    ensures url[..|UrlPrefix(account)|] == UrlPrefix(account)
    ensures url[|UrlPrefix(account)|..|url| - |FirstPage|] == encodedTerm
    ensures url[|url| - |FirstPage|..] == FirstPage
  {
    UrlPrefix(account) + encodedTerm + FirstPage
  }

  /** Reads the escaped term back out of a search URL of the account; the
      inverse of `SearchUrl`. */
  function EncodedTermOf(account: string, url: string): Option<string> {
    var pre := UrlPrefix(account);
    if |url| >= |pre| + |FirstPage| && url[..|pre|] == pre && url[|url| - |FirstPage|..] == FirstPage
    then Some(url[|pre|..|url| - |FirstPage|])
    else None
  }

  /** Every escaped term is recovered from the URL built for it. */
  lemma SearchUrlRoundTrip(account: string, encodedTerm: string)
    ensures EncodedTermOf(account, SearchUrl(account, encodedTerm)) == Some(encodedTerm)
  {
    var url := SearchUrl(account, encodedTerm);
    var pre := UrlPrefix(account);
    assert url[|pre|..|url| - |FirstPage|] == encodedTerm;
  }

  /** Whatever URL the parser accepts is exactly the URL built for the term it
      reads. */
  lemma EncodedTermOfIsExact(account: string, url: string)
    requires EncodedTermOf(account, url).Some?
    ensures SearchUrl(account, EncodedTermOf(account, url).value) == url
  {
    var pre := UrlPrefix(account);
    var e := url[|pre|..|url| - |FirstPage|];
    assert url == url[..|pre|] + e + url[|url| - |FirstPage|..];
  }

  /** The URL determines the term: different escaped terms give different URLs. */
  lemma SearchUrlInjective(account: string, e1: string, e2: string)
    requires SearchUrl(account, e1) == SearchUrl(account, e2)
    ensures e1 == e2
  {
    SearchUrlRoundTrip(account, e1);
    SearchUrlRoundTrip(account, e2);
  }

  /** A catalog record, reduced to the fields the handler reads. A nested list
      that is absent is represented as empty: the handler indexes both the
      same way and fails on both. Leaf fields that are absent are `None`. */
  datatype Image = Image(imageUrl: Option<string>)
  datatype Offer = Offer(price: Option<real>)
  datatype Seller = Seller(commertialOffer: Option<Offer>)
  datatype Item = Item(images: seq<Image>, sellers: seq<Seller>)
  datatype Record = Record(productName: Option<string>, linkText: Option<string>, items: seq<Item>)

  /** The product sent to the front end. A field the record lacks stays
      `undefined` in JavaScript and is `None` here. */
  datatype Product = Product(name: Option<string>, img: Option<string>, price: Option<real>, link: Option<string>)

  /** The record has everything the projection dereferences: a first item,
      that item's first image and first seller, and the seller's offer.
      Without any of them the property access throws. */
  predicate WellShaped(p: Record) {
    && |p.items| > 0
    && |p.items[0].images| > 0
    && |p.items[0].sellers| > 0
    && p.items[0].sellers[0].commertialOffer.Some?
  }

  /** Every record has what the projection dereferences. */
  predicate AllWellShaped(ps: seq<Record>) {
    forall i :: 0 <= i < |ps| ==> WellShaped(ps[i])
  }

  function Project(p: Record): Product
    requires WellShaped(p)
  {
    var item := p.items[0];
    Product(p.productName, item.images[0].imageUrl, item.sellers[0].commertialOffer.value.price, p.linkText)
  }

  /** `q` is the product formatted from `p`: its name, image, price and link
      are the record's name, first item's first image URL, first item's first
      seller's offer price, and link text. */
  predicate FormattedFrom(p: Record, q: Product) {
    && WellShaped(p)
    && q.name == p.productName
    && q.img == p.items[0].images[0].imageUrl
    && q.price == p.items[0].sellers[0].commertialOffer.value.price
    && q.link == p.linkText
  }

  /** The `map` that formats every record, in order. If any record is not well
      shaped the access throws, and there is no product list at all. */
  function FormatAll(ps: seq<Record>): (r: Option<seq<Product>>)
    ensures r.Some? <==> AllWellShaped(ps)
    ensures r.Some? ==> |r.value| == |ps| && forall i :: 0 <= i < |ps| ==> FormattedFrom(ps[i], r.value[i])
    decreases |ps|
  {
    if |ps| == 0 then Some([])
    else if !WellShaped(ps[0]) then None
    else match FormatAll(ps[1..])
      case None => None
      case Some(rest) => Some([Project(ps[0])] + rest)
  }

  /** Formatting works record by record: the list for a concatenation is the
      concatenation of the lists, and fails exactly when either part fails. */
  lemma {:induction false} FormatAllAppend(a: seq<Record>, b: seq<Record>)
    ensures FormatAll(a + b).Some? <==> FormatAll(a).Some? && FormatAll(b).Some?
    ensures FormatAll(a + b).Some? ==> FormatAll(a + b).value == FormatAll(a).value + FormatAll(b).value
    decreases |a|
  {
    if |a| > 0 {
      assert (a + b)[1..] == a[1..] + b;
      FormatAllAppend(a[1..], b);
    } else {
      assert a + b == b;
    }
  }
}
