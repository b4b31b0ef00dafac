/**
  The page title shown in the application header, derived from the URL path.
  The path is split on '/'. Its last segment, or "dashboard" when that segment
  is empty, is capitalised and becomes the title. A last segment "new" names a
  creation page instead: the title is "New " followed by the second segment,
  capitalised and with its final character dropped ("purchases" gives
  "Purchase"). The second segment does not exist when the path has no '/' at
  all; the source then throws, modelled here as `None`.

  Upper-casing is modelled for ASCII letters only.
 */
module Header {
  import opened Core
  import opened Paths

  /** ASCII `toUpperCase` of one character. */
  function Upper(c: char): (r: char)
    ensures 'a' <= c <= 'z' ==> 'A' <= r <= 'Z' && r as int - c as int == 'A' as int - 'a' as int
    ensures !('a' <= c <= 'z') ==> r == c
  {
    if 'a' <= c <= 'z' then (c as int - 'a' as int + 'A' as int) as char else c
  }

  /** `w.charAt(0).toUpperCase() + w.slice(1)`. */
  function Capitalize(w: string): (r: string)
    ensures |r| == |w|
    ensures |w| > 0 ==> r[0] == Upper(w[0]) && r[1..] == w[1..]
  {
    if |w| == 0 then "" else [Upper(w[0])] + w[1..]
  }

  /** `w.charAt(0).toUpperCase() + w.slice(1, -1)`: capitalised, last character dropped. */
  function Singular(w: string): (r: string)
    ensures |w| <= 1 ==> r == Capitalize(w)
    ensures |w| >= 2 ==> r == Capitalize(w[..|w| - 1])
  {
    if |w| == 0 then "" else [Upper(w[0])] + (if |w| >= 2 then w[1..|w| - 1] else "")
  }

  /** `getPageTitle`; `None` where reading the missing second segment throws. */
  function PageTitle(path: string): (r: Option<string>)
    ensures r.None? <==> path == "new"
    ensures r.Some? ==> |r.value| > 0
  {
    SplitWord("new");
    var segs := Split(path);
    var last := segs[|segs| - 1];
    var name := if last == "" then "dashboard" else last;
    if name == "new" then
      if |segs| < 2 then
        JoinSplit(path);
        None
      else Some("New " + Singular(segs[1]))
    else Some(Capitalize(name))
  }

  /** A path whose last piece is a name other than "new" is titled by that name. */
  lemma TitleIsLastSegment(p: string, w: string)
    requires NoSlash(w) && w != "" && w != "new"
    ensures PageTitle(p + "/" + w) == Some(Capitalize(w))
    ensures PageTitle(w) == Some(Capitalize(w))
  {
    SplitSlashWord(p, w);
    SplitWord(w);
  }

  /** The empty path and any path ending in '/' are the dashboard. */
  lemma TrailingSlashIsDashboard(p: string)
    ensures PageTitle(p + "/") == Some("Dashboard")
    ensures PageTitle("") == Some("Dashboard")
  {
    SplitSlashWord(p, "");
    assert p + "/" + "" == p + "/";
    assert Split(p + "/")[|Split(p + "/")| - 1] == "";
    assert Capitalize("dashboard") == "Dashboard";
  }

  /** A creation page is titled after the second piece of its path, whatever lies between. */
  lemma NewPageTitle(segs: seq<string>)
    requires |segs| >= 2 && segs[|segs| - 1] == "new"
    requires forall i :: 0 <= i < |segs| ==> NoSlash(segs[i])
    ensures PageTitle(Join(segs)) == Some("New " + Singular(segs[1]))
  {
    SplitJoin(segs);
    TitleFromSplit(Join(segs), segs);
  }

  /** The title of a path whose pieces are known and end in "new". */
  lemma TitleFromSplit(path: string, segs: seq<string>)
    requires Split(path) == segs && |segs| >= 2 && segs[|segs| - 1] == "new"
    ensures PageTitle(path) == Some("New " + Singular(segs[1]))
  {
  }

  /** The creation page under `/parent`, for a slash-free `parent`. */
  lemma TitledNewPage(parent: string, title: string)
    requires NoSlash(parent) && Singular(parent) == title
    ensures PageTitle("/" + parent + "/new") == Some("New " + title)
  {
    SplitNewPage(parent);
    TitleFromPieces("/" + parent + "/new", parent);
  }

  /** `/parent/new` splits into the empty piece, `parent` and "new". */
  lemma SplitNewPage(parent: string)
    requires NoSlash(parent)
    ensures Split("/" + parent + "/new") == ["", parent, "new"]
  {
    var path := "/" + parent + "/new";
    assert NoSlash("new");
    SplitWord("new");
    SplitWordSlash(parent, "new");
    SplitWordSlash("", parent + "/" + "new");
    assert "" + "/" + (parent + "/" + "new") == path;
    assert [""] + ([parent] + ["new"]) == ["", parent, "new"];
  }

  /** The title of a path whose pieces are known to be the empty piece, `parent` and "new". */
  lemma TitleFromPieces(path: string, parent: string)
    requires Split(path) == ["", parent, "new"]
    ensures PageTitle(path) == Some("New " + Singular(parent))
  {
  }

  /** The spelling facts about "purchases" that its creation page title rests on. */
  lemma PurchasesWord()
    ensures NoSlash("purchases") && Singular("purchases") == "Purchase"
    ensures "/" + "purchases" + "/new" == "/purchases/new" && "New " + "Purchase" == "New Purchase"
  {
    var w := "purchases";
    assert NoSlash(w) by {
      assert w[0] != '/' && w[1] != '/' && w[2] != '/' && w[3] != '/' && w[4] != '/';
      assert w[5] != '/' && w[6] != '/' && w[7] != '/' && w[8] != '/';
    }
    assert Singular(w) == "Purchase" by {
      assert Upper('p') == 'P';
      assert w[1..8] == "urchase";
    }
  }

  /** The creation page for purchases. */
  lemma PurchaseCreationTitle(path: string)
    ensures path == "/purchases/new" ==> PageTitle(path) == Some("New Purchase")
  {
    if path == "/purchases/new" {
      PurchasesWord();
      TitledNewPage("purchases", "Purchase");
    }
  }

  /** The spelling facts about "sales" that its creation page title rests on. */
  lemma SalesWord()
    ensures NoSlash("sales") && Singular("sales") == "Sale"
    ensures "/" + "sales" + "/new" == "/sales/new" && "New " + "Sale" == "New Sale"
  {
    var w := "sales";
    assert NoSlash(w) by {
      assert w[0] != '/' && w[1] != '/' && w[2] != '/' && w[3] != '/' && w[4] != '/';
    }
    assert Singular(w) == "Sale" by {
      assert Upper('s') == 'S';
      assert w[1..4] == "ale";
    }
  }

  /** The creation page for sales. */
  lemma SaleCreationTitle(path: string)
    ensures path == "/sales/new" ==> PageTitle(path) == Some("New Sale")
  {
    if path == "/sales/new" {
      SalesWord();
      TitledNewPage("sales", "Sale");
    }
  }
}
