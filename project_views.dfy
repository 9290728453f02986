/**
 * The project pages: soft delete (one or many), the queries behind the
 * listing, detail and update pages, and the related-issue list of the
 * detail page.
 */
module ProjectViews {
  import opened Wrappers
  import opened Text
  import opened Seqs
  import opened Forms
  import opened Models

  /** The search form's `search` field: optional text of at most 100 characters. */
  const SearchMaxLength := 100

  // ------------------------------------------------------------ queries

  /** The rows every project query starts from: `filter(is_deleted=False)`. */
  function ActiveProjects(rows: seq<Project>): (r: seq<Project>)
    ensures forall p :: p in r <==> p in rows && !p.isDeleted
    ensures IsSubsequence(r, rows)
  {
    Filter(rows, (p: Project) => !p.isDeleted)
  }

  /** The two-field search of the listing: name or description contains the text, ignoring case. */
  predicate MatchesProject(p: Project, search: string) {
    ContainsIgnoringCase(p.name, search) || ContainsIgnoringCase(p.description, search)
  }

  /**
   * The listing's rows before ordering: the undeleted projects, narrowed by
   * the search text when the search form is valid and its text non-empty.
   */
  function SearchedProjects(rows: seq<Project>, rawSearch: string): (r: seq<Project>)
    ensures IsSubsequence(r, ActiveProjects(rows))
  {
    var active := ActiveProjects(rows);
    match CleanCharField(rawSearch, false, SearchMaxLength)
    case Some(search) =>
      if search != "" then Filter(active, (p: Project) => MatchesProject(p, search))
      else
        SubsequenceOfItself(active);
        active
    case None =>
      SubsequenceOfItself(active);
      active
  }

  ghost predicate SortedByStartDate(s: seq<Project>) {
    forall i, j :: 0 <= i < j < |s| ==> s[i].startsDate <= s[j].startsDate
  }

  function InsertByStartDate(p: Project, s: seq<Project>): (r: seq<Project>)
    requires SortedByStartDate(s)
    ensures SortedByStartDate(r)
    ensures multiset(r) == multiset(s) + multiset{p}
  {
    if s == [] || p.startsDate <= s[0].startsDate then
      SortedCons(p, s);
      [p] + s
    else
      var rest := InsertByStartDate(p, s[1..]);
      assert s == [s[0]] + s[1..];
      BoundSurvivesInsert(s[0].startsDate, p, s[1..], rest);
      SortedCons(s[0], rest);
      [s[0]] + rest
  }

  lemma SortedCons(p: Project, s: seq<Project>)
    requires SortedByStartDate(s) && (|s| > 0 ==> p.startsDate <= s[0].startsDate)
    ensures SortedByStartDate([p] + s)
  {
    var r := [p] + s;
    forall i, j | 0 <= i < j < |r| ensures r[i].startsDate <= r[j].startsDate {
      if i == 0 {
        assert r[j] == s[j - 1];
        assert s[0].startsDate <= s[j - 1].startsDate;
      } else {
        assert r[i] == s[i - 1] && r[j] == s[j - 1];
      }
    }
  }

  /** A lower bound on start dates that holds for `p` and all of `s` holds for any rearrangement of them. */
  lemma BoundSurvivesInsert(d: Date, p: Project, s: seq<Project>, rest: seq<Project>)
    requires d <= p.startsDate
    requires forall j :: 0 <= j < |s| ==> d <= s[j].startsDate
    requires multiset(rest) == multiset(s) + multiset{p}
    ensures forall j :: 0 <= j < |rest| ==> d <= rest[j].startsDate
  {
    forall j | 0 <= j < |rest| ensures d <= rest[j].startsDate {
      assert rest[j] in multiset(rest);
      if rest[j] != p {
        assert rest[j] in multiset(s);
        var k :| 0 <= k < |s| && s[k] == rest[j];
      }
    }
  }

  /** `order_by('starts_date')`: ascending start date, same rows. */
  function SortByStartDate(s: seq<Project>): (r: seq<Project>)
    ensures SortedByStartDate(r)
    ensures multiset(r) == multiset(s)
  {
    if s == [] then []
    else
      assert s == [s[0]] + s[1..];
      InsertByStartDate(s[0], SortByStartDate(s[1..]))
  }

  /** `ProjectsView.get_queryset`: the searched rows ordered by start date. */
  function ProjectListing(rows: seq<Project>, rawSearch: string): (r: seq<Project>)
    ensures SortedByStartDate(r)
    ensures multiset(r) == multiset(SearchedProjects(rows, rawSearch))
  {
    SortByStartDate(SearchedProjects(rows, rawSearch))
  }

  /** The listing never shows a soft-deleted project, nor anything not stored. */
  lemma ListingOnlyActive(rows: seq<Project>, rawSearch: string)
    ensures forall p :: p in ProjectListing(rows, rawSearch) ==> p in rows && !p.isDeleted
  {
    var r := ProjectListing(rows, rawSearch);
    var s := SearchedProjects(rows, rawSearch);
    forall p | p in r ensures p in rows && !p.isDeleted {
      assert p in multiset(r);
      assert p in s;
      SubsequenceMembers(s, ActiveProjects(rows), p);
    }
  }

  /** With a valid non-empty search text a project is listed iff it is live and matches. */
  lemma ListingWithSearch(rows: seq<Project>, rawSearch: string, search: string)
    requires CleanCharField(rawSearch, false, SearchMaxLength) == Some(search) && search != ""
    ensures forall p :: p in ProjectListing(rows, rawSearch) <==>
                        p in rows && !p.isDeleted && MatchesProject(p, search)
  {
    var r := ProjectListing(rows, rawSearch);
    forall p ensures p in r <==> p in SearchedProjects(rows, rawSearch) {
      assert p in r <==> p in multiset(r);
    }
  }

  /** An empty or invalid search text (say, longer than 100 characters) filters nothing. */
  lemma ListingWithoutSearch(rows: seq<Project>, rawSearch: string)
    requires CleanCharField(rawSearch, false, SearchMaxLength) in {None, Some("")}
    ensures multiset(ProjectListing(rows, rawSearch)) == multiset(ActiveProjects(rows))
  {
  }

  /** The search of the listing is case-insensitive: "proj" finds a project named "MyProject". */
  lemma SearchExample(p: Project)
    requires p.name == "MyProject"
    ensures MatchesProject(p, "proj")
  {
    assert Lower("proj") == "proj";
    assert Lower("MyProject") == "myproject";
    assert "myproject"[2..] == "project";
    assert "proj" <= "project";
  }

  /**
   * The object lookup of the detail and update pages: the undeleted project
   * with that primary key, or not found.
   */
  function VisibleProject(rows: seq<Project>, pk: nat): (r: Option<Project>)
    ensures r.Some? ==> r.value in rows && r.value.pk == pk && !r.value.isDeleted
    ensures r.None? <==> forall p :: p in rows && p.pk == pk ==> p.isDeleted
  {
    var hits := Filter(ActiveProjects(rows), (p: Project) => p.pk == pk);
    if hits == [] then None else Some(hits[0])
  }

  /**
   * `paginate_comments`: a project without issues gets the empty issue list,
   * no page and `is_paginated` false; otherwise its issues go to the
   * paginator.
   */
  datatype Comments =
    | Unpaged(issues: seq<Issue>, page: Option<nat>, isPaginated: bool)
    | ToPaginator(issues: seq<Issue>)

  function PaginateComments(allIssues: seq<Issue>, project: nat): (r: Comments)
    ensures r.Unpaged? <==> forall i :: i in allIssues ==> i.project != project
    ensures r.Unpaged? ==> r.issues == [] && r.page == None && !r.isPaginated
    ensures r.ToPaginator? ==> forall i :: i in r.issues <==> i in allIssues && i.project == project
  {
    var related := Filter(allIssues, (i: Issue) => i.project == project);
    if |related| > 0 then
      assert related[0] in related;
      ToPaginator(related)
    else
      Unpaged(related, None, false)
  }

  // ------------------------------------------------------------ soft delete

  ghost predicate UniquePks(rows: seq<Project>) {
    forall i, j :: 0 <= i < j < |rows| ==> rows[i].pk != rows[j].pk
  }

  function Pks(rows: seq<Project>): set<nat> {
    set p | p in rows :: p.pk
  }

  /**
   * The table after soft-deleting the projects whose primary key is in
   * `ids`: same rows in the same order, the flag set on exactly those,
   * every other field as it was.
   */
  function MarkDeleted(rows: seq<Project>, ids: set<nat>): (r: seq<Project>)
    ensures |r| == |rows|
    ensures forall i :: 0 <= i < |rows| ==> r[i].(isDeleted := rows[i].isDeleted) == rows[i]
    ensures forall i :: 0 <= i < |rows| ==> r[i].isDeleted == (rows[i].isDeleted || rows[i].pk in ids)
  {
    seq(|rows|, i requires 0 <= i < |rows| =>
      if rows[i].pk in ids then rows[i].(isDeleted := true) else rows[i])
  }

  /** Soft-deleting twice is soft-deleting once. */
  lemma MarkDeletedIdempotent(rows: seq<Project>, ids: set<nat>)
    ensures MarkDeleted(MarkDeleted(rows, ids), ids) == MarkDeleted(rows, ids)
  {
  }

  /** Identifiers matching no project change nothing. */
  lemma MarkDeletedIgnoresUnknown(rows: seq<Project>, ids: set<nat>)
    ensures MarkDeleted(rows, ids) == MarkDeleted(rows, ids * Pks(rows))
  {
    var a, b := MarkDeleted(rows, ids), MarkDeleted(rows, ids * Pks(rows));
    forall i | 0 <= i < |rows| ensures a[i] == b[i] {
      assert rows[i] in rows;
    }
  }

  /** A soft-deleted project disappears from the listing and from detail and update lookups. */
  lemma MarkDeletedHides(rows: seq<Project>, ids: set<nat>, rawSearch: string, pk: nat)
    requires pk in ids
    ensures VisibleProject(MarkDeleted(rows, ids), pk) == None
    ensures forall p :: p in ProjectListing(MarkDeleted(rows, ids), rawSearch) ==> p.pk !in ids
  {
    var m := MarkDeleted(rows, ids);
    assert forall p :: p in m && p.pk in ids ==> p.isDeleted;
    ListingOnlyActive(m, rawSearch);
  }

  /** The position of the project with primary key `pk`, if stored. */
  function IndexOfPk(rows: seq<Project>, pk: nat): (r: Option<nat>)
    ensures r.Some? ==> r.value < |rows| && rows[r.value].pk == pk
    ensures r.None? <==> pk !in Pks(rows)
  {
    if rows == [] then None
    else if rows[0].pk == pk then Some(0)
    else
      match IndexOfPk(rows[1..], pk)
      case Some(i) => Some(i + 1)
      case None =>
        assert Pks(rows) == {rows[0].pk} + Pks(rows[1..]) by {
          assert rows == [rows[0]] + rows[1..];
        }
        None
  }

  /** The stored projects, updated in place by the delete views. */
  class ProjectTable {
    var projects: seq<Project>

    ghost predicate Valid()
      reads this
    {
      UniquePks(projects)
    }

    constructor (rows: seq<Project>)
      requires UniquePks(rows)
      ensures Valid() && projects == rows
    {
      projects := rows;
    }

    /**
     * `multi_delete`: every project whose primary key is among the submitted
     * identifiers gets its flag set; the loop runs over the table and acts on
     * the rows the `pk__in` filter selects.
     */
    method MultiDelete(ids: seq<nat>)
      requires Valid()
      modifies this
      ensures Valid()
      ensures projects == MarkDeleted(old(projects), set id | id in ids)
    {
      ghost var selected := set id | id in ids;
      ghost var target := MarkDeleted(projects, selected);
      var i := 0;
      while i < |projects|
        invariant 0 <= i <= |projects| == |old(projects)|
        invariant forall k :: 0 <= k < i ==> projects[k] == target[k]
        invariant forall k :: i <= k < |projects| ==> projects[k] == old(projects)[k]
      {
        if projects[i].pk in ids {
          projects := projects[i := projects[i].(isDeleted := true)];
        }
        i := i + 1;
      }
    }

    /**
     * `ProjectDeleteView.delete`: the project with this primary key (deleted
     * or not) gets its flag set and stays stored; an unknown key is a
     * not-found response and changes nothing.
     */
    method Delete(pk: nat) returns (found: bool)
      requires Valid()
      modifies this
      ensures Valid()
      ensures found <==> pk in Pks(old(projects))
      ensures projects == MarkDeleted(old(projects), {pk})
    {
      var idx := IndexOfPk(projects, pk);
      if idx.None? {
        return false;
      }
      var k := idx.value;
      projects := projects[k := projects[k].(isDeleted := true)];
      return true;
    }
  }
}
