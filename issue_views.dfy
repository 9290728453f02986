/** The issue pages: the searchable issue list and issue creation under a project. */
module IssueViews {
  import opened Wrappers
  import opened Text
  import opened Seqs
  import opened Models
  import opened ProjectViews

  /** The two-field search of the issue list: summary or description contains the text, ignoring case. */
  predicate MatchesIssue(i: Issue, search: string) {
    ContainsIgnoringCase(i.summary, search) || ContainsIgnoringCase(i.description, search)
  }

  /**
   * `IssuesView.get_queryset`: the search value comes from the list view's
   * search form (None when there is none); a missing or empty value leaves
   * the issues as they are, any other value keeps the matching ones.
   */
  function SearchIssues(issues: seq<Issue>, searchValue: Option<string>): (r: seq<Issue>)
    ensures searchValue.None? || searchValue == Some("") ==> r == issues
    ensures searchValue.Some? && searchValue.value != "" ==>
              forall i :: i in r <==> i in issues && MatchesIssue(i, searchValue.value)
    ensures IsSubsequence(r, issues)
  {
    if searchValue.Some? && searchValue.value != "" then
      Filter(issues, (i: Issue) => MatchesIssue(i, searchValue.value))
    else
      SubsequenceOfItself(issues);
      issues
  }

  /** A search only ever removes issues: what it returns is stored and matches. */
  lemma SearchKeepsStoredIssues(issues: seq<Issue>, search: string, i: Issue)
    requires search != "" && i in SearchIssues(issues, Some(search))
    ensures i in issues && MatchesIssue(i, search)
  {
  }

  ghost predicate UniqueIssuePks(issues: seq<Issue>) {
    forall a, b :: 0 <= a < b < |issues| ==> issues[a].pk != issues[b].pk
  }

  /** The stored issues; creation appends a row. */
  class IssueTable {
    var issues: seq<Issue>
    var nextPk: nat

    ghost predicate Valid()
      reads this
    {
      && UniqueIssuePks(issues)
      && (forall i :: i in issues ==> i.pk < nextPk && ValidIssue(i))
    }

    constructor ()
      ensures Valid() && issues == [] && nextPk == 0
    {
      issues := [];
      nextPk := 0;
    }

    /**
     * `IssueCreateView.form_valid`, called with the cleaned form: the
     * project is the one whose primary key is in the URL (looked up among
     * all projects, soft-deleted ones included; unknown is a not-found
     * response and stores nothing). The issue row is saved first, then its
     * type links.
     */
    method CreateIssue(projects: seq<Project>, urlPk: nat, form: IssueFields) returns (created: Option<nat>)
      requires Valid() && ValidIssueFields(form)
      modifies this
      ensures Valid()
      ensures created.Some? <==> urlPk in Pks(projects)
      ensures created.None? ==> issues == old(issues) && nextPk == old(nextPk)
      ensures created.Some? ==>
                && created.value == old(nextPk) && nextPk == old(nextPk) + 1
                && issues == old(issues) + [Issue(created.value, urlPk, form.summary, form.description, form.status, form.types)]
    {
      var idx := IndexOfPk(projects, urlPk);
      if idx.None? {
        return None;
      }
      var project := projects[idx.value];
      var issue := Issue(nextPk, project.pk, form.summary, form.description, form.status, {});
      issues := issues + [issue];
      nextPk := nextPk + 1;
      issues := issues[|issues| - 1 := issue.(types := form.types)];
      created := Some(issue.pk);
    }
  }
}
