/** The selection the user builds before sending (`toggleAgentSelection`,
    `toggleOrchestratorSelection`), the orchestrator default of the send
    request, and the guard both submit handlers start with. */
module Selection {
  import opened Text
  import opened Records

  /** The orchestrator the send request names when none is selected. */
  const DefaultOrchestrator: string := "testsupervisor3"

  predicate NoDuplicates(s: seq<string>) {
    forall i, j :: 0 <= i < j < |s| ==> s[i] != s[j]
  }

  /** `s.filter(a => a !== title)`. */
  function Without(s: seq<string>, title: string): (r: seq<string>)
    ensures |r| <= |s|
    ensures forall i :: 0 <= i < |r| ==> r[i] != title
  {
    if s == [] then [] else (if s[0] == title then [] else [s[0]]) + Without(s[1..], title)
  }

  /** The filter drops every copy of `title` and keeps everything else. */
  lemma {:induction false} WithoutMembers(s: seq<string>, title: string)
    ensures forall x :: x in Without(s, title) <==> x in s && x != title
  {
    if s != [] {
      WithoutMembers(s[1..], title);
      assert s == [s[0]] + s[1..];
    }
  }

  /** Filtering out a title that is not there changes nothing. */
  lemma {:induction false} WithoutAbsent(s: seq<string>, title: string)
    requires title !in s
    ensures Without(s, title) == s
  {
    if s != [] {
      assert title !in s[1..];
      WithoutAbsent(s[1..], title);
      assert s == [s[0]] + s[1..];
    }
  }

  /** In a list without duplicates the filter removes the one entry holding
      `title` and keeps the others in order. */
  lemma {:induction false} WithoutRemovesAt(s: seq<string>, title: string, k: int)
    requires NoDuplicates(s) && 0 <= k < |s| && s[k] == title
    ensures Without(s, title) == s[..k] + s[k + 1..]
  {
    if k == 0 {
      assert title !in s[1..] by {
        forall j | 0 <= j < |s[1..]| ensures s[1..][j] != title {
          assert s[1..][j] == s[j + 1];
        }
      }
      WithoutAbsent(s[1..], title);
    } else {
      assert NoDuplicates(s[1..]) by {
        forall i, j | 0 <= i < j < |s[1..]| ensures s[1..][i] != s[1..][j] {
          assert s[1..][i] == s[i + 1] && s[1..][j] == s[j + 1];
        }
      }
      WithoutRemovesAt(s[1..], title, k - 1);
      assert s[..k] == [s[0]] + s[1..][..k - 1];
      assert s[k + 1..] == s[1..][k..];
    }
  }

  /** Filtering keeps a list free of duplicates. */
  lemma {:induction false} WithoutNoDuplicates(s: seq<string>, title: string)
    ensures NoDuplicates(s) ==> NoDuplicates(Without(s, title))
  {
    if s != [] && NoDuplicates(s) {
      assert NoDuplicates(s[1..]) by {
        forall i, j | 0 <= i < j < |s[1..]| ensures s[1..][i] != s[1..][j] {
          assert s[1..][i] == s[i + 1] && s[1..][j] == s[j + 1];
        }
      }
      WithoutNoDuplicates(s[1..], title);
      WithoutMembers(s[1..], title);
      assert s[0] !in s[1..] by {
        forall j | 0 <= j < |s[1..]| ensures s[1..][j] != s[0] {
          assert s[1..][j] == s[j + 1];
        }
      }
    }
  }

  /** `toggleAgentSelection`: a selected title is removed, any other title is
      appended at the end. The title is selected afterwards exactly when it
      was not before, no other title changes, and a list without duplicates
      stays without them. */
  function ToggleAgent(selected: seq<string>, title: string): (r: seq<string>)
    ensures title in r <==> title !in selected
    ensures forall x :: x != title ==> (x in r <==> x in selected)
    ensures title !in selected ==> r == selected + [title]
    ensures NoDuplicates(selected) ==> NoDuplicates(r)
  {
    WithoutMembers(selected, title);
    WithoutNoDuplicates(selected, title);
    if title in selected then Without(selected, title) else
      selected + [title]
  }

  /** Toggling the same title twice restores the selection: the same
      titles are selected, and the very same list when the title was not
      selected at first. When it was, it has moved to the end. */
  lemma ToggleAgentTwice(selected: seq<string>, title: string)
    requires NoDuplicates(selected)
    ensures forall x :: x in ToggleAgent(ToggleAgent(selected, title), title) <==> x in selected
    ensures title !in selected ==> ToggleAgent(ToggleAgent(selected, title), title) == selected
    ensures forall k :: 0 <= k < |selected| && selected[k] == title ==>
      ToggleAgent(ToggleAgent(selected, title), title) == selected[..k] + selected[k + 1..] + [title]
  {
    if title !in selected {
      WithoutAbsent(selected, title);
      assert Without(selected + [title], title) == Without(selected, title) by {
        WithoutAppend(selected, [title], title);
        assert Without([title], title) == [];
      }
    } else {
      forall k | 0 <= k < |selected| && selected[k] == title
        ensures ToggleAgent(ToggleAgent(selected, title), title) == selected[..k] + selected[k + 1..] + [title]
      {
        WithoutRemovesAt(selected, title, k);
      }
    }
  }

  /** Filtering a concatenation filters each part. */
  lemma {:induction false} WithoutAppend(a: seq<string>, b: seq<string>, title: string)
    ensures Without(a + b, title) == Without(a, title) + Without(b, title)
  {
    if a == [] {
      assert a + b == b;
    } else {
      assert (a + b)[1..] == a[1..] + b;
      WithoutAppend(a[1..], b, title);
    }
  }

  /** `toggleOrchestratorSelection`: the title is selected afterwards exactly
      when it was not selected before; deselecting it leaves none. */
  function ToggleOrchestrator(previous: Option<string>, title: string): (r: Option<string>)
    ensures r == Some(title) <==> previous != Some(title)
    ensures r.None? <==> previous == Some(title)
  {
    if previous == Some(title) then None else Some(title)
  }

  /** `selectedOrchestrator || 'testsupervisor3'`: the selected title, or the
      default when nothing (or an empty title) is selected. The request
      always names an orchestrator. */
  function OrchestratorType(selected: Option<string>): (t: string)
    ensures t != []
    ensures selected.Some? && selected.value != [] ==> t == selected.value
    ensures selected.None? || selected.value == [] ==> t == DefaultOrchestrator
  {
    if selected.Some? && selected.value != [] then selected.value else DefaultOrchestrator
  }

  /** The guard of both submit handlers, `input.trim()` not empty: it holds
      exactly when the input has a character that is not whitespace. */
  function Submittable(input: string): (ok: bool)
    ensures ok <==> !IsBlank(input)
  {
    TrimEmptyIffBlank(input);
    Trim(input) != []
  }
}
