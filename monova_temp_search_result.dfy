/**
 * A provisional Monova search result: the item id from a search page and
 * the details-page URL built from it once, at construction.
 */
module MonovaSearch {
  import opened Media
  import opened JavaStrings

  const DetailsUrlPrefix: string := "http://www.monova.org/torrent/"
  const DetailsUrlSuffix: string := ".html"

  /** The two final fields; both are fixed at construction. */
  datatype MonovaTempSearchResult = MonovaTempSearchResult(itemId: Option<string>, detailsUrl: string)

  /**
   * The constructor: keeps `itemId` and builds
   * prefix + itemId + "/" + filename + ".html", where a null operand
   * contributes the text "null".
   */
  function NewMonovaTempSearchResult(itemId: Option<string>, filename: Option<string>): (r: MonovaTempSearchResult)
    ensures r.itemId == itemId
    ensures StartsWith(r.detailsUrl, DetailsUrlPrefix + Str(itemId) + "/")
    ensures EndsWith(r.detailsUrl, "/" + Str(filename) + DetailsUrlSuffix)
    ensures |r.detailsUrl| == |DetailsUrlPrefix| + |Str(itemId)| + 1 + |Str(filename)| + |DetailsUrlSuffix|
  {
    var url := DetailsUrlPrefix + Str(itemId) + "/" + Str(filename) + DetailsUrlSuffix;
    assert url[..|DetailsUrlPrefix + Str(itemId) + "/"|] == DetailsUrlPrefix + Str(itemId) + "/";
    assert url[|DetailsUrlPrefix + Str(itemId)|..] == "/" + Str(filename) + DetailsUrlSuffix;
    MonovaTempSearchResult(itemId, url)
  }

  /** The item id given at construction. */
  function GetItemId(r: MonovaTempSearchResult): (id: Option<string>)
    ensures id == r.itemId
  {
    r.itemId
  }

  /** The details URL built at construction. */
  function GetDetailsUrl(r: MonovaTempSearchResult): (url: string)
    ensures url == r.detailsUrl
  {
    r.detailsUrl
  }

  /** A provisional result has no display name (null). */
  function GetDisplayName(r: MonovaTempSearchResult): (name: Option<string>)
    ensures name.None?
  {
    None
  }

  /** Every such result comes from Monova. */
  function GetSource(r: MonovaTempSearchResult): (source: string)
    ensures source == "Monova"
  {
    "Monova"
  }

  /** A provisional result is never complete; its details page must still be crawled. */
  function IsComplete(r: MonovaTempSearchResult): (complete: bool)
    ensures !complete
  {
    false
  }

  // ---------------------------------------------------------------------
  // Reading the item id and file name back from a details URL

  /** The text before the first '/' (all of it when there is none). */
  function UpToSlash(s: string): (r: string)
    ensures |r| <= |s| && r == s[..|r|]
    ensures '/' !in r
  {
    if s == [] || s[0] == '/' then [] else [s[0]] + UpToSlash(s[1..])
  }

  /** The item id a details URL names: the segment right after the prefix. */
  function ItemIdOfUrl(url: string): (id: Option<string>)
    ensures id.Some? ==> StartsWith(url, DetailsUrlPrefix + id.value)
  {
    if StartsWith(url, DetailsUrlPrefix) then
      var id := UpToSlash(url[|DetailsUrlPrefix|..]);
      assert url[..|DetailsUrlPrefix + id|] == DetailsUrlPrefix + id;
      Some(id)
    else None
  }

  /** The file name a details URL names: between the item-id segment and ".html". */
  function FilenameOfUrl(url: string): (name: Option<string>)
  {
    match ItemIdOfUrl(url)
    case None => None
    case Some(id) =>
      var start := |DetailsUrlPrefix| + |id| + 1;
      if start + |DetailsUrlSuffix| <= |url| && EndsWith(url, DetailsUrlSuffix)
      then Some(url[start..|url| - |DetailsUrlSuffix|])
      else None
  }

  lemma {:induction false} UpToSlashStopsAtSlash(a: string, b: string)
    requires '/' !in a
    ensures UpToSlash(a + "/" + b) == a
  {
    if a != [] {
      assert (a + "/" + b)[1..] == a[1..] + "/" + b;
      UpToSlashStopsAtSlash(a[1..], b);
    } else {
      assert (a + "/" + b)[0] == '/';
    }
  }

  /** `getItemId` returns the constructor's item id unchanged. */
  lemma ItemIdKept(itemId: Option<string>, filename: Option<string>)
    ensures GetItemId(NewMonovaTempSearchResult(itemId, filename)) == itemId
  {
  }

  /**
   * The details URL is decodable: when the item id's text holds no '/',
   * both the item id's text and the file name's text can be read back from it.
   */
  lemma DetailsUrlRoundTrip(itemId: Option<string>, filename: Option<string>)
    requires '/' !in Str(itemId)
    ensures ItemIdOfUrl(GetDetailsUrl(NewMonovaTempSearchResult(itemId, filename))) == Some(Str(itemId))
    ensures FilenameOfUrl(GetDetailsUrl(NewMonovaTempSearchResult(itemId, filename))) == Some(Str(filename))
  {
    var id, name := Str(itemId), Str(filename);
    var url := GetDetailsUrl(NewMonovaTempSearchResult(itemId, filename));
    assert url == DetailsUrlPrefix + (id + "/" + (name + DetailsUrlSuffix));
    assert url[|DetailsUrlPrefix|..] == id + "/" + (name + DetailsUrlSuffix);
    UpToSlashStopsAtSlash(id, name + DetailsUrlSuffix);
    var start := |DetailsUrlPrefix| + |id| + 1;
    assert url[start..|url| - |DetailsUrlSuffix|] == name;
  }

  /**
   * The URL keeps the item id's text, not the item id: a null item id and
   * the item id "null" build the same URL, though `getItemId` tells them apart.
   */
  lemma NullItemIdCollides(filename: Option<string>)
    ensures GetDetailsUrl(NewMonovaTempSearchResult(None, filename))
         == GetDetailsUrl(NewMonovaTempSearchResult(Some("null"), filename))
    ensures GetItemId(NewMonovaTempSearchResult(None, filename))
         != GetItemId(NewMonovaTempSearchResult(Some("null"), filename))
  {
  }

  /** Distinct (item id, file name) texts give distinct details URLs, for ids without '/'. */
  lemma DetailsUrlInjective(id1: Option<string>, fn1: Option<string>, id2: Option<string>, fn2: Option<string>)
    requires '/' !in Str(id1) && '/' !in Str(id2)
    requires GetDetailsUrl(NewMonovaTempSearchResult(id1, fn1)) == GetDetailsUrl(NewMonovaTempSearchResult(id2, fn2))
    ensures Str(id1) == Str(id2) && Str(fn1) == Str(fn2)
  {
    DetailsUrlRoundTrip(id1, fn1);
    DetailsUrlRoundTrip(id2, fn2);
  }
}
