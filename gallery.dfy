/**
 * `fetch_gallery`: the album list for all children, then every album, each
 * picture of an album that answers "OK" flattened into one gallery item.
 */
module Gallery {
  import opened Wrappers
  import opened Json
  import opened Decimal
  import opened Portal
  import opened State
  import opened SessionGuard
  import opened Fetchers

  /** `{"title": ..., "url": ..., "created": ...}`, each "" when the picture lacks it. */
  datatype GalleryItem = GalleryItem(title: Json, url: Json, created: Json)

  function ItemOf(picture: map<string, Json>): GalleryItem {
    GalleryItem(GetOr(picture, "title", Str("")), GetOr(picture, "url", Str("")), GetOr(picture, "created", Str("")))
  }

  // ---------------------------------------------------------------- the id list

  /** `",".join(parts)`. */
  function Join(parts: seq<string>): string {
    if parts == [] then ""
    else if |parts| == 1 then parts[0]
    else parts[0] + "," + Join(parts[1..])
  }

  /** The index of the first comma, or |s| when there is none. */
  function FirstComma(s: string): (i: nat)
    ensures i <= |s|
    ensures forall j :: 0 <= j < i ==> s[j] != ','
    ensures i < |s| ==> s[i] == ','
  {
    if s == [] then 0 else if s[0] == ',' then 0 else 1 + FirstComma(s[1..])
  }

  /** `s.split(",")`. */
  function Split(s: string): seq<string>
    decreases |s|
  {
    var i := FirstComma(s);
    if i == |s| then [s] else [s[..i]] + Split(s[i + 1..])
  }

  /** The `str(child["id"])` of every child of every stored profile, in order. */
  function IdTexts(cs: seq<Child>): (r: seq<string>)
    ensures |r| == |cs|
    ensures forall i :: 0 <= i < |cs| ==> r[i] == IntToString(cs[i].id)
  {
    if cs == [] then [] else [IntToString(cs[0].id)] + IdTexts(cs[1..])
  }

  lemma NoCommaInId(i: int)
    ensures ',' !in IntToString(i)
  {
    NatToStringDigits(if i < 0 then -i else i);
  }

  lemma {:induction false} FirstCommaAfter(x: string, rest: string)
    requires ',' !in x
    ensures FirstComma(x + "," + rest) == |x|
  {
    if x != [] {
      assert (x + "," + rest)[1..] == x[1..] + "," + rest;
      FirstCommaAfter(x[1..], rest);
    }
  }

  /** Splitting the joined list at its commas recovers the parts, when no part holds a comma. */
  lemma {:induction false} SplitJoin(parts: seq<string>)
    requires parts != []
    requires forall i :: 0 <= i < |parts| ==> ',' !in parts[i]
    ensures Split(Join(parts)) == parts
  {
    if |parts| == 1 {
      assert FirstComma(parts[0]) == |parts[0]|;
    } else {
      var j := Join(parts);
      var rest := Join(parts[1..]);
      assert j == parts[0] + "," + rest;
      FirstCommaAfter(parts[0], rest);
      assert j[..|parts[0]|] == parts[0];
      assert j[|parts[0]| + 1..] == rest;
      SplitJoin(parts[1..]);
      assert parts == [parts[0]] + parts[1..];
    }
  }

  /** The `institutionProfileIds` parameter lists every child id in order: splitting it recovers them. */
  lemma IdListRoundTrip(cs: seq<Child>)
    requires cs != []
    ensures |Split(Join(IdTexts(cs)))| == |cs|
    ensures forall i :: 0 <= i < |cs| ==>
      var t := Split(Join(IdTexts(cs)))[i]; IsNumeral(t) && ParseInt(t) == cs[i].id
  {
    forall i | 0 <= i < |cs| ensures ',' !in IdTexts(cs)[i] {
      NoCommaInId(cs[i].id);
    }
    SplitJoin(IdTexts(cs));
    forall i | 0 <= i < |cs| ensures IsNumeral(IntToString(cs[i].id)) && ParseInt(IntToString(cs[i].id)) == cs[i].id {
      ParseIntToString(cs[i].id);
    }
  }

  // ---------------------------------------------------------------- the albums

  function AlbumsUrl(apiurl: string, ids: string): string {
    apiurl + "?method=gallery.getAlbums&institutionProfileIds=" + ids + "&page=0"
  }

  function AlbumUrl(apiurl: string, id: int): string {
    apiurl + "?method=gallery.getAlbum&id=" + IntToString(id)
  }

  /** The items of one album's pictures, in order. */
  function Items(pictures: seq<map<string, Json>>): (r: seq<GalleryItem>)
    ensures |r| == |pictures|
    ensures forall j :: 0 <= j < |pictures| ==> r[j] == ItemOf(pictures[j])
  {
    if pictures == [] then [] else Items(pictures[..|pictures| - 1]) + [ItemOf(pictures[|pictures| - 1])]
  }

  /** What one album contributes: its items when it answers "OK", nothing otherwise. */
  function AlbumItems(reply: AlbumReply): seq<GalleryItem> {
    if reply.message == "OK" then Items(reply.pictures) else []
  }

  /** The album loop: one GET per album, the items of every album that answers "OK". */
  function Albums(apiurl: string, p: Portal, ids: seq<int>): (seq<Request>, seq<GalleryItem>) {
    if ids == [] then ([], [])
    else
      var (sent, items) := Albums(apiurl, p, ids[..|ids| - 1]);
      var id := ids[|ids| - 1];
      (sent + [Get(AlbumUrl(apiurl, id))], items + AlbumItems(p.album(id)))
  }

  /** `fetch_gallery`. Iterating `_profiles` before any login stored them raises. */
  function FetchGallery(c: Core, p: Portal, user: string, pwd: string): Step<seq<GalleryItem>>
    requires Negotiable(p.versions)
  {
    var g := Guard(c, p, user, pwd);
    if g.out.Failure? then Raise(g)
    else if g.core.profiles.None? then Step(g.core, g.sent, Failure(NotLoggedIn))
    else
      var list := Get(AlbumsUrl(g.core.apiurl, Join(IdTexts(AllChildren(g.core.profiles.value)))));
      if p.albums.message != "OK" then Step(g.core, g.sent + [list], Success([]))
      else
        var (sent, items) := Albums(g.core.apiurl, p, p.albums.albums);
        Step(g.core, g.sent + [list] + sent, Success(items))
  }

  // ---------------------------------------------------------------- properties

  /** Every album is requested, in order, whether or not it answers "OK". */
  lemma {:induction false} AlbumsRequests(apiurl: string, p: Portal, ids: seq<int>)
    ensures |Albums(apiurl, p, ids).0| == |ids|
    ensures forall i :: 0 <= i < |ids| ==> Albums(apiurl, p, ids).0[i] == Get(AlbumUrl(apiurl, ids[i]))
  {
    if ids != [] {
      AlbumsRequests(apiurl, p, ids[..|ids| - 1]);
    }
  }

  /** One album: one GET, and the items of its pictures when it answers "OK". */
  lemma AlbumsOne(apiurl: string, p: Portal, id: int)
    ensures Albums(apiurl, p, [id]) ==
      ([Get(AlbumUrl(apiurl, id))], if p.album(id).message == "OK" then Items(p.album(id).pictures) else [])
  {
    assert [id][..0] == [];
    assert Albums(apiurl, p, [id][..0]) == ([], []);
    assert [] + [Get(AlbumUrl(apiurl, id))] == [Get(AlbumUrl(apiurl, id))];
    assert [] + AlbumItems(p.album(id)) == AlbumItems(p.album(id));
  }

  /**
   * The album loop over two runs of albums is the loop over the first
   * followed by the loop over the second: requests and items keep the
   * album order, and each album's items the picture order.
   */
  lemma {:induction false} AlbumsAppend(apiurl: string, p: Portal, a: seq<int>, b: seq<int>)
    ensures Albums(apiurl, p, a + b) ==
      (Albums(apiurl, p, a).0 + Albums(apiurl, p, b).0, Albums(apiurl, p, a).1 + Albums(apiurl, p, b).1)
    decreases |b|
  {
    var x := Albums(apiurl, p, a);
    if b == [] {
      assert a + b == a;
      assert x.0 + [] == x.0 && x.1 + [] == x.1;
    } else {
      var init := b[..|b| - 1];
      assert (a + b)[..|a + b| - 1] == a + init;
      assert (a + b)[|a + b| - 1] == b[|b| - 1];
      AlbumsAppend(apiurl, p, a, init);
      var y := Albums(apiurl, p, init);
      var id := b[|b| - 1];
      assert Albums(apiurl, p, a + b) == (x.0 + y.0 + [Get(AlbumUrl(apiurl, id))], x.1 + y.1 + AlbumItems(p.album(id)));
      assert Albums(apiurl, p, b) == (y.0 + [Get(AlbumUrl(apiurl, id))], y.1 + AlbumItems(p.album(id)));
      assert x.0 + y.0 + [Get(AlbumUrl(apiurl, id))] == x.0 + (y.0 + [Get(AlbumUrl(apiurl, id))]);
      assert x.1 + y.1 + AlbumItems(p.album(id)) == x.1 + (y.1 + AlbumItems(p.album(id)));
    }
  }

  /** x is the item of some picture of an album that answered "OK". */
  ghost predicate Shows(p: Portal, id: int, x: GalleryItem) {
    p.album(id).message == "OK" && exists j :: 0 <= j < |p.album(id).pictures| && x == ItemOf(p.album(id).pictures[j])
  }

  /** An item is in the gallery exactly when it is built from a picture of an album that answered "OK". */
  lemma {:induction false} AlbumsContents(apiurl: string, p: Portal, ids: seq<int>, x: GalleryItem)
    ensures x in Albums(apiurl, p, ids).1 <==> exists i :: 0 <= i < |ids| && Shows(p, ids[i], x)
  {
    if ids != [] {
      var init, id := ids[..|ids| - 1], ids[|ids| - 1];
      AlbumsContents(apiurl, p, init, x);
      assert Albums(apiurl, p, ids).1 == Albums(apiurl, p, init).1 + AlbumItems(p.album(id));
      assert x in AlbumItems(p.album(id)) <==> Shows(p, id, x);
      var before := exists i :: 0 <= i < |init| && Shows(p, init[i], x);
      if before {
        var i :| 0 <= i < |init| && Shows(p, init[i], x);
        assert ids[i] == init[i];
      }
      if exists i :: 0 <= i < |ids| && Shows(p, ids[i], x) {
        var i :| 0 <= i < |ids| && Shows(p, ids[i], x);
        if i < |init| { assert init[i] == ids[i]; }
      }
    }
  }

  /** An album list that is not "OK" gives an empty gallery after the one list request. */
  lemma GallerySoftFails(c: Core, p: Portal, user: string, pwd: string)
    requires Negotiable(p.versions)
    requires Guard(c, p, user, pwd).out.Success? && Guard(c, p, user, pwd).core.profiles.Some?
    requires p.albums.message != "OK"
    ensures FetchGallery(c, p, user, pwd).out == Success([])
    ensures |FetchGallery(c, p, user, pwd).sent| == |Guard(c, p, user, pwd).sent| + 1
  {
  }
}
