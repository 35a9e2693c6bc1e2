/** The list logic of the match overview component: the two-team selection for a new match,
    the team filter and its toggle, submitting a new match and clearing the filter. Each
    state updater is a function from the previous value to the next. */
module MatchOverview {
  import opened Wrappers
  import opened Seqs
  import opened FrontendTypes

  /** The component's own state (the fetched list of teams aside). */
  datatype State = State(
    selectedTeamIds: seq<int>,
    dateTime: string,
    location: string,
    filterDate: string,
    filterTeamIds: seq<int>)

  /** `ids.filter(id => id !== teamId)`. */
  function Without(ids: seq<int>, teamId: int): (r: seq<int>)
    ensures teamId !in r
    ensures forall x :: x != teamId ==> (x in r <==> x in ids)
    ensures IsSubsequence(r, ids)
  {
    Filter(ids, x => x != teamId)
  }

  /** The updater of `handleTeamSelection`: a selected team is deselected; otherwise the team is
      appended and the list cut to its first two entries. */
  function ToggleSelection(prev: seq<int>, teamId: int): (r: seq<int>)
    ensures teamId in prev ==> r == Without(prev, teamId)
    ensures teamId !in prev && |prev| < 2 ==> r == prev + [teamId]
    ensures teamId !in prev && |prev| >= 2 ==> r == prev[..2]
    ensures teamId !in prev && |prev| == 2 ==> r == prev
    ensures |prev| <= 2 ==> |r| <= 2
  {
    if teamId in prev then Without(prev, teamId)
    else
      var appended := prev + [teamId];
      assert |prev| >= 2 ==> appended[..2] == prev[..2];
      appended[..if |appended| < 2 then |appended| else 2]
  }

  /** The selection after a sequence of clicks on team buttons. */
  function SelectAll(prev: seq<int>, clicks: seq<int>): seq<int>
    decreases |clicks|
  {
    if clicks == [] then prev else SelectAll(ToggleSelection(prev, clicks[0]), clicks[1..])
  }

  /** However the buttons are clicked, starting from at most two distinct teams the selection
      stays at most two distinct teams. */
  lemma {:induction false} SelectionStaysCapped(prev: seq<int>, clicks: seq<int>)
    requires |prev| <= 2 && NoDup(prev)
    ensures |SelectAll(prev, clicks)| <= 2 && NoDup(SelectAll(prev, clicks))
    decreases |clicks|
  {
    if clicks != [] {
      var id := clicks[0];
      var next := ToggleSelection(prev, id);
      if id in prev {
        FilterNoDup(prev, x => x != id);
      } else if |prev| < 2 {
        AppendNoDup(prev, id);
      } else {
        PrefixNoDup(prev, 2);
      }
      SelectionStaysCapped(next, clicks[1..]);
    }
  }

  /** The updater of `handleFilterTeamSelection`: the same toggle, without a cap. */
  function ToggleFilter(prev: seq<int>, teamId: int): (r: seq<int>)
    ensures teamId in r <==> teamId !in prev
    ensures forall x :: x != teamId ==> (x in r <==> x in prev)
  {
    if teamId in prev then Without(prev, teamId) else prev + [teamId]
  }

  /** Toggling a team that is not in the filter twice gives back the filter unchanged. */
  lemma {:induction false} ToggleFilterTwiceRestores(prev: seq<int>, teamId: int)
    requires teamId !in prev
    ensures ToggleFilter(ToggleFilter(prev, teamId), teamId) == prev
  {
    var keep := (x: int) => x != teamId;
    assert ToggleFilter(prev, teamId) == prev + [teamId];
    FilterConcat(prev, [teamId], keep);
    FilterKeepsAll(prev, keep);
    assert Filter([teamId], keep) == [];
  }

  /** `match.teams.some(team => filterTeamIds.includes(team.id))`. */
  predicate PlaysIn(m: Match, teamIds: seq<int>) {
    exists i :: 0 <= i < |m.teams| && m.teams[i].id in teamIds
  }

  /** The team filter of the effect: the matches with some team in the filter, in order. */
  function FilterByTeams(matches: seq<Match>, teamIds: seq<int>): (r: seq<Match>)
    ensures IsSubsequence(r, matches)
    ensures forall m :: m in r <==> m in matches && PlaysIn(m, teamIds)
  {
    Filter(matches, m => PlaysIn(m, teamIds))
  }

  /** The filter effect: the date filter when a date is set (`onDate` stands for the comparison
      of the match's ISO date with it), then the team filter when a team is selected. */
  function FilteredMatches(matches: seq<Match>, filterDate: string, filterTeamIds: seq<int>,
                           onDate: (Match, string) -> bool): (r: seq<Match>)
    ensures IsSubsequence(r, matches)
    ensures filterDate == "" && filterTeamIds == [] ==> r == matches
    ensures filterDate == "" && filterTeamIds != [] ==> r == FilterByTeams(matches, filterTeamIds)
    ensures forall m :: m in r <==>
      m in matches && (filterDate != "" ==> onDate(m, filterDate)) && (filterTeamIds != [] ==> PlaysIn(m, filterTeamIds))
  {
    var byDate := if filterDate != "" then Filter(matches, m => onDate(m, filterDate)) else matches;
    SubsequenceReflexive(matches);
    if |filterTeamIds| > 0 then
      var byTeam := FilterByTeams(byDate, filterTeamIds);
      SubsequenceTransitive(byTeam, byDate, matches);
      byTeam
    else byDate
  }

  /** A new match as `onAddMatch` receives it. */
  datatype MatchRequest = MatchRequest(teamIds: seq<int>, dateTime: string, location: string)

  /** Either `onAddMatch` is called and the form is reset, or an alert is shown. */
  datatype AddMatchOutcome =
    | Submitted(request: MatchRequest, next: State)
    | Alerted(message: string, next: State)

  const AddMatchAlert := "Please select two teams, date and location."

  /** `handleAddMatch`: submits only with exactly two teams, a date and a location; then clears
      those three inputs and leaves the filter alone. Otherwise nothing changes. */
  function HandleAddMatch(s: State): (r: AddMatchOutcome)
    ensures r.Submitted? <==> |s.selectedTeamIds| == 2 && s.dateTime != "" && s.location != ""
    ensures r.Submitted? ==>
      && r.request == MatchRequest(s.selectedTeamIds, s.dateTime, s.location)
      && r.next.selectedTeamIds == [] && r.next.dateTime == "" && r.next.location == ""
      && r.next.filterDate == s.filterDate && r.next.filterTeamIds == s.filterTeamIds
    ensures r.Alerted? ==> r.next == s && r.message == AddMatchAlert
  {
    if |s.selectedTeamIds| == 2 && s.dateTime != "" && s.location != "" then
      Submitted(MatchRequest(s.selectedTeamIds, s.dateTime, s.location),
                s.(selectedTeamIds := [], dateTime := "", location := ""))
    else
      Alerted(AddMatchAlert, s)
  }

  /** A selection made only with the team buttons, starting from the empty one, is submitted
      with two different teams. */
  lemma SubmittedTeamsDistinct(s: State, clicks: seq<int>)
    requires s.selectedTeamIds == SelectAll([], clicks)
    requires HandleAddMatch(s).Submitted?
    ensures HandleAddMatch(s).request.teamIds[0] != HandleAddMatch(s).request.teamIds[1]
  {
    SelectionStaysCapped([], clicks);
    var ids := s.selectedTeamIds;
    assert ids[1..] == [ids[1]];
  }

  /** `handleClearFilter`: no date and no team in the filter; nothing else changes. */
  function HandleClearFilter(s: State): (r: State)
    ensures r.filterDate == "" && r.filterTeamIds == []
    ensures r.(filterDate := s.filterDate, filterTeamIds := s.filterTeamIds) == s
  {
    s.(filterDate := "", filterTeamIds := [])
  }

  /** After clearing the filter every match is shown again. */
  lemma ClearFilterShowsAll(s: State, matches: seq<Match>, onDate: (Match, string) -> bool)
    ensures var c := HandleClearFilter(s); FilteredMatches(matches, c.filterDate, c.filterTeamIds, onDate) == matches
  {
  }
}
