/**
 * The shapefile listing: a directory listing reduced to the names that end
 * in ".shp", in the listing's own order (no sorting is applied).
 * The directory read itself is outside the model; the listing is an input.
 */
module ShapefileListing {

  /** The suffix that marks a shapefile. */
  const ShapefileSuffix: string := ".shp"

  /** Python's `str.endswith`: `suffix` is a (case-sensitive) tail of `s`. */
  predicate EndsWith(s: string, suffix: string)
  {
    |suffix| <= |s| && s[|s| - |suffix|..] == suffix
  }

  predicate IsShapefileName(name: string)
  {
    EndsWith(name, ShapefileSuffix)
  }

  /**
   * The comprehension `[f for f in listing if f.endswith('.shp')]`.
   * Exactly the shapefile names of the listing survive.
   */
  function ListShapefiles(listing: seq<string>): (r: seq<string>)
    ensures |r| <= |listing|
    ensures forall i :: 0 <= i < |r| ==> IsShapefileName(r[i])
    ensures forall name :: name in r <==> name in listing && IsShapefileName(name)
  {
    if listing == [] then []
    else if IsShapefileName(listing[0]) then [listing[0]] + ListShapefiles(listing[1..])
    else ListShapefiles(listing[1..])
  }

  /**
   * Order is kept: filtering a concatenation is the concatenation of the
   * filtered parts, so a name that precedes another in the listing also
   * precedes it in the result.
   */
  lemma {:induction false} ListShapefilesAppend(a: seq<string>, b: seq<string>)
    ensures ListShapefiles(a + b) == ListShapefiles(a) + ListShapefiles(b)
  {
    if a == [] {
      assert a + b == b;
    } else {
      assert (a + b)[1..] == a[1..] + b;
      ListShapefilesAppend(a[1..], b);
    }
  }

  /**
   * Multiplicities are kept: each shapefile name occurs in the result as
   * often as in the listing, every other name not at all.
   */
  lemma {:induction false} ListShapefilesCount(listing: seq<string>, name: string)
    ensures multiset(ListShapefiles(listing))[name] ==
            if IsShapefileName(name) then multiset(listing)[name] else 0
  {
    if listing != [] {
      assert listing == [listing[0]] + listing[1..];
      ListShapefilesCount(listing[1..], name);
    }
  }

  /** A listing that holds only shapefile names is returned unchanged. */
  lemma {:induction false} ListShapefilesKeepsAll(listing: seq<string>)
    requires forall i :: 0 <= i < |listing| ==> IsShapefileName(listing[i])
    ensures ListShapefiles(listing) == listing
  {
    if listing != [] {
      ListShapefilesKeepsAll(listing[1..]);
    }
  }

  /** Filtering a second time changes nothing. */
  lemma ListShapefilesIdempotent(listing: seq<string>)
    ensures ListShapefiles(ListShapefiles(listing)) == ListShapefiles(listing)
  {
    ListShapefilesKeepsAll(ListShapefiles(listing));
  }
}
