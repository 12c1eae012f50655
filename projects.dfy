/**
 * The project gallery: a tag filter over the project list, with `'all'` as a
 * shortcut for everything, and a single slot holding the project whose
 * details are open.
 */
module Projects {
  import opened Js

  /** A gallery entry; images, links and descriptions are presentation and are not kept. */
  datatype Project = Project(id: int, title: string, tags: seq<string>)

  const AllFilter := "all"

  /** The filter buttons, in the order they are shown. */
  const Filters: seq<string> := ["all", "react", "node", "typescript", "fullstack"]

  /** The projects the page lists. */
  const Catalog: seq<Project> := [
    Project(1, "Restaurant Platfrom", ["react", "node", "typescript", "fullstack"]),
    Project(2, "Task Management App", ["react", "typescript", "express", "SQL"]),
    Project(4, "Music web player", ["react", "node", "SQL", "fullstack"])
  ]

  /**
   * `projects.filter(project => project.tags.includes(tag))`: exactly the
   * projects carrying the tag, matched exactly and case-sensitively, and
   * never more of them than there were.
   */
  function WithTag(projects: seq<Project>, tag: string): (r: seq<Project>)
    ensures |r| <= |projects|
    ensures forall p :: p in r <==> p in projects && tag in p.tags
  {
    if projects == [] then []
    else (if tag in projects[0].tags then [projects[0]] else []) + WithTag(projects[1..], tag)
  }

  /** `filteredProjects`: the whole list under `'all'`, otherwise the projects with that tag. */
  function Visible(projects: seq<Project>, filter: string): (r: seq<Project>)
    ensures filter == AllFilter ==> r == projects
    ensures |r| <= |projects|
    ensures filter != AllFilter ==> forall p :: p in r <==> p in projects && filter in p.tags
  {
    if filter == AllFilter then projects else WithTag(projects, filter)
  }

  /** Each project occurs in the result as often as in the input when it carries the tag, and not at all otherwise. */
  lemma {:induction false} WithTagCounts(projects: seq<Project>, tag: string, p: Project)
    ensures multiset(WithTag(projects, tag))[p] == if tag in p.tags then multiset(projects)[p] else 0
  {
    if projects != [] {
      WithTagCounts(projects[1..], tag, p);
      assert projects == [projects[0]] + projects[1..];
    }
  }

  /** `idx` lists, in increasing order, the positions in `s` that `r` was taken from. */
  ghost predicate Embedding(r: seq<Project>, s: seq<Project>, idx: seq<nat>) {
    && |idx| == |r|
    && (forall k :: 0 <= k < |idx| ==> idx[k] < |s| && r[k] == s[idx[k]])
    && (forall k, l :: 0 <= k < l < |idx| ==> idx[k] < idx[l])
  }

  /** The filtered list is a subsequence of the input: it keeps the projects' relative order. */
  lemma {:induction false} WithTagKeepsOrder(projects: seq<Project>, tag: string) returns (idx: seq<nat>)
    ensures Embedding(WithTag(projects, tag), projects, idx)
  {
    if projects == [] {
      idx := [];
    } else {
      var rest := WithTagKeepsOrder(projects[1..], tag);
      var shifted := EmbeddingShift(WithTag(projects[1..], tag), projects, rest);
      if tag in projects[0].tags {
        assert WithTag(projects, tag) == [projects[0]] + WithTag(projects[1..], tag);
        idx := [0] + shifted;
        EmbeddingCons(WithTag(projects[1..], tag), projects, shifted);
      } else {
        assert WithTag(projects, tag) == WithTag(projects[1..], tag);
        idx := shifted;
      }
    }
  }

  /** An embedding into the tail of `s` moves up by one place into `s` itself. */
  lemma EmbeddingShift(r: seq<Project>, s: seq<Project>, idx: seq<nat>) returns (shifted: seq<nat>)
    requires s != [] && Embedding(r, s[1..], idx)
    ensures Embedding(r, s, shifted)
    ensures forall k :: 0 <= k < |shifted| ==> shifted[k] >= 1
  {
    shifted := seq(|idx|, k requires 0 <= k < |idx| => idx[k] + 1);
    forall k | 0 <= k < |shifted| ensures shifted[k] < |s| && r[k] == s[shifted[k]] {
      assert s[1..][idx[k]] == s[idx[k] + 1];
    }
  }

  /** Taking `s`'s first element in front of an embedding that avoids position 0. */
  lemma EmbeddingCons(r: seq<Project>, s: seq<Project>, idx: seq<nat>)
    requires s != [] && Embedding(r, s, idx)
    requires forall k :: 0 <= k < |idx| ==> idx[k] >= 1
    ensures Embedding([s[0]] + r, s, [0] + idx)
  {
    var r', idx' := [s[0]] + r, [0] + idx;
    forall k | 0 <= k < |idx'| ensures idx'[k] < |s| && r'[k] == s[idx'[k]] {
      if k > 0 {
        assert idx'[k] == idx[k - 1] && r'[k] == r[k - 1];
      }
    }
    forall k, l | 0 <= k < l < |idx'| ensures idx'[k] < idx'[l] {
      if k > 0 {
        assert idx'[k] == idx[k - 1] && idx'[l] == idx[l - 1];
      } else {
        assert idx'[l] == idx[l - 1];
      }
    }
  }

  /** A filter no project carries, such as a different capitalisation of a tag, shows nothing. */
  lemma {:induction false} UnmatchedFilterShowsNothing(projects: seq<Project>, filter: string)
    requires filter != AllFilter
    requires forall p | p in projects :: filter !in p.tags
    ensures Visible(projects, filter) == []
  {
    if projects != [] {
      assert projects[0] in projects;
      UnmatchedFilterShowsNothing(projects[1..], filter);
    }
  }

  /** On the page's own list, the `node` button shows the first and third projects. */
  lemma CatalogNode()
    ensures Visible(Catalog, "node") == [Catalog[0], Catalog[2]]
  {
    assert "node" !in Catalog[1].tags;
  }

  /** On the page's own list, the `typescript` button shows the first two projects. */
  lemma CatalogTypescript()
    ensures Visible(Catalog, "typescript") == [Catalog[0], Catalog[1]]
  {
    assert "typescript" !in Catalog[2].tags;
  }

  /** Tags match case-sensitively: `React` shows nothing although every project is tagged `react`. */
  lemma CatalogCaseSensitive()
    ensures Visible(Catalog, "react") == Catalog
    ensures Visible(Catalog, "React") == []
  {
    UnmatchedFilterShowsNothing(Catalog, "React");
  }

  // ---------------------------------------------------------------- the gallery's state

  /** `activeFilter` and `selectedProject`; `None` is `null`, the closed modal. */
  datatype Gallery = Gallery(activeFilter: string, selected: Option<Project>)

  const InitialGallery := Gallery(AllFilter, None)

  /** A click: a filter button, a project's Details button, the modal's backdrop or its close button. */
  datatype Click = FilterButton(filter: string) | DetailsButton(project: Project) | Backdrop | CloseButton

  /** The state after one click; each handler replaces one of the two values whole. */
  function Step(g: Gallery, c: Click): Gallery {
    match c
    case FilterButton(f) => g.(activeFilter := f)
    case DetailsButton(p) => g.(selected := Some(p))
    case Backdrop => g.(selected := None)
    case CloseButton => g.(selected := None)
  }

  /** The state after a run of clicks, in order. */
  function Run(g: Gallery, clicks: seq<Click>): Gallery
    decreases clicks
  {
    if clicks == [] then g else Run(Step(g, clicks[0]), clicks[1..])
  }

  /** The project whose details were opened last and not dismissed since; the filter buttons do not count. */
  function OpenProject(initial: Option<Project>, clicks: seq<Click>): Option<Project> {
    if clicks == [] then initial
    else
      match clicks[|clicks| - 1]
      case DetailsButton(p) => Some(p)
      case Backdrop => None
      case CloseButton => None
      case FilterButton(_) => OpenProject(initial, clicks[..|clicks| - 1])
  }

  /** The filter chosen last, if any filter button was clicked. */
  function LastFilter(initial: string, clicks: seq<Click>): string {
    if clicks == [] then initial
    else if clicks[|clicks| - 1].FilterButton? then clicks[|clicks| - 1].filter
    else LastFilter(initial, clicks[..|clicks| - 1])
  }

  lemma {:induction false} RunSnoc(g: Gallery, clicks: seq<Click>, c: Click)
    decreases clicks
    ensures Run(g, clicks + [c]) == Step(Run(g, clicks), c)
  {
    if clicks != [] {
      assert (clicks + [c])[1..] == clicks[1..] + [c];
      RunSnoc(Step(g, clicks[0]), clicks[1..], c);
    }
  }

  /**
   * After any run of clicks the modal shows the project opened last and not
   * dismissed since, and the filter is the one chosen last; the two slots do
   * not interfere.
   */
  lemma {:induction false} RunMeaning(g: Gallery, clicks: seq<Click>)
    ensures Run(g, clicks).selected == OpenProject(g.selected, clicks)
    ensures Run(g, clicks).activeFilter == LastFilter(g.activeFilter, clicks)
  {
    if clicks != [] {
      var front := clicks[..|clicks| - 1];
      assert clicks == front + [clicks[|clicks| - 1]];
      RunSnoc(g, front, clicks[|clicks| - 1]);
      RunMeaning(g, front);
    }
  }

  /** Changing the filter, however often, never opens, closes or changes the selected project. */
  lemma {:induction false} FiltersKeepSelection(g: Gallery, clicks: seq<Click>)
    requires forall i | 0 <= i < |clicks| :: clicks[i].FilterButton?
    ensures Run(g, clicks).selected == g.selected
  {
    RunMeaning(g, clicks);
    FilterClicksOpenNothing(g.selected, clicks);
  }

  lemma {:induction false} FilterClicksOpenNothing(initial: Option<Project>, clicks: seq<Click>)
    requires forall i | 0 <= i < |clicks| :: clicks[i].FilterButton?
    ensures OpenProject(initial, clicks) == initial
  {
    if clicks != [] {
      FilterClicksOpenNothing(initial, clicks[..|clicks| - 1]);
    }
  }
}
