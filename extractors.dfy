/**
 * The registry of press extractors (presse_service/extractors/__init__.py): the dispatch of a
 * site name to its extractor module and the listing of the supported names.
 */
module Extractors {
  import opened Wrappers

  /** The four extractor modules. */
  datatype Site = Gfm | Rts | Senepeople | Lequotidien

  /** The name each module answers to. */
  function Name(s: Site): string
  {
    match s
    case Gfm => "gfm"
    case Rts => "rts"
    case Senepeople => "senepeople"
    case Lequotidien => "lequotidien"
  }

  /**
   * `get_extractor(site)`: the `if`/`elif` chain. `None` is the ImportError of an unknown name;
   * the import of a known module failing is an ImportError too, which `importable` decides.
   */
  function GetExtractor(site: string, importable: Site -> bool): (r: Option<Site>)
    ensures r.Some? ==> Name(r.value) == site && importable(r.value)
  {
    var s :=
      if site == "gfm" then Some(Gfm)
      else if site == "rts" then Some(Rts)
      else if site == "senepeople" then Some(Senepeople)
      else if site == "lequotidien" then Some(Lequotidien)
      else None;
    if s.Some? && importable(s.value) then s else None
  }

  /** `list_extractors()`. */
  function ListExtractors(): (r: seq<string>)
    ensures |r| == 4
  {
    ["gfm", "rts", "senepeople", "lequotidien"]
  }

  /** Every module is reached by its own name. */
  lemma NameRoundTrip(s: Site, importable: Site -> bool)
    requires importable(s)
    ensures GetExtractor(Name(s), importable) == Some(s)
  {
  }

  /** The listing agrees with the dispatch: a name is listed iff `get_extractor` knows it. */
  lemma ListingAgrees(site: string, importable: Site -> bool)
    requires forall s :: importable(s)
    ensures site in ListExtractors() <==> GetExtractor(site, importable).Some?
  {
    if site in ListExtractors() {
      var i :| 0 <= i < 4 && ListExtractors()[i] == site;
      assert i == 0 || i == 1 || i == 2 || i == 3;
    }
  }

  /** The listing is the four modules' names, in the order of the dispatch, without repeats. */
  lemma ListingOrder()
    ensures ListExtractors() == [Name(Gfm), Name(Rts), Name(Senepeople), Name(Lequotidien)]
    ensures forall i, j :: 0 <= i < j < |ListExtractors()| ==> ListExtractors()[i] != ListExtractors()[j]
  {
    assert "gfm" != "rts" && "gfm" != "senepeople" && "gfm" != "lequotidien" by {
      assert "gfm"[0] != "rts"[0] && "gfm"[0] != "senepeople"[0] && "gfm"[0] != "lequotidien"[0];
    }
    assert "rts" != "senepeople" && "rts" != "lequotidien" by {
      assert "rts"[0] != "senepeople"[0] && "rts"[0] != "lequotidien"[0];
    }
    assert "senepeople" != "lequotidien" by { assert "senepeople"[0] != "lequotidien"[0]; }
  }
}
