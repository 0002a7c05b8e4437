/**
 * The client roster on the dashboard: the clients shown for the selected
 * status tab and search text, and the number of clients behind each tab.
 */
module Dashboard {
  import opened Domain
  import Text
  import Seqs

  /** The status tab: every client, or the clients of one status. */
  datatype DashboardFilter = All | Only(status: ClientStatus)

  predicate MatchesFilter(filter: DashboardFilter, c: Client) {
    filter.All? || c.status == filter.status
  }

  /** The lower-cased name or e-mail contains the lower-cased query. */
  predicate MatchesSearch(query: string, c: Client) {
    Text.Contains(Text.Lower(c.name), Text.Lower(query)) || Text.Contains(Text.Lower(c.email), Text.Lower(query))
  }

  predicate Shown(filter: DashboardFilter, query: string, c: Client) {
    MatchesFilter(filter, c) && MatchesSearch(query, c)
  }

  /** `filteredClients`. */
  function FilteredClients(clients: seq<Client>, filter: DashboardFilter, query: string): (r: seq<Client>)
    ensures |r| <= |clients|
    ensures forall i :: 0 <= i < |r| ==> MatchesFilter(filter, r[i]) && MatchesSearch(query, r[i])
  {
    Seqs.FilterSpec(clients, (c: Client) => Shown(filter, query, c));
    Seqs.Filter(clients, (c: Client) => Shown(filter, query, c))
  }

  /**
   * The shown clients are those of the roster that pass both the tab and the
   * search, in roster order.
   */
  lemma FilteredClientsSpec(clients: seq<Client>, filter: DashboardFilter, query: string)
    ensures forall c :: c in FilteredClients(clients, filter, query) <==>
      c in clients && MatchesFilter(filter, c) && MatchesSearch(query, c)
    ensures Seqs.IsSubsequence(FilteredClients(clients, filter, query), clients)
    ensures |FilteredClients(clients, filter, query)| == Seqs.Count(clients, (c: Client) => Shown(filter, query, c))
  {
    var keep := (c: Client) => Shown(filter, query, c);
    Seqs.FilterSpec(clients, keep);
    Seqs.FilterLength(clients, keep, (c: Client) => !Shown(filter, query, c));
  }

  /** The empty query matches every client. */
  lemma EmptyQueryMatches(c: Client)
    ensures MatchesSearch("", c)
  {
    assert Text.Lower("") == "";
    Text.ContainsEmpty(Text.Lower(c.name));
  }

  /** With the "all" tab and no search text the whole roster is shown. */
  lemma AllTabShowsRoster(clients: seq<Client>)
    ensures FilteredClients(clients, All, "") == clients
  {
    forall i | 0 <= i < |clients| ensures Shown(All, "", clients[i]) {
      EmptyQueryMatches(clients[i]);
    }
    Seqs.FilterKeepsAll(clients, (c: Client) => Shown(All, "", c));
  }

  /** `clients.filter(c => c.status === status)`. */
  function WithStatus(clients: seq<Client>, status: ClientStatus): seq<Client> {
    Seqs.Filter(clients, (c: Client) => c.status == status)
  }

  /** With a status tab and no search text, exactly the clients of that status are shown. */
  lemma StatusTabShowsStatus(clients: seq<Client>, status: ClientStatus)
    ensures FilteredClients(clients, Only(status), "") == WithStatus(clients, status)
  {
    forall i | 0 <= i < |clients|
      ensures Shown(Only(status), "", clients[i]) == (clients[i].status == status)
    {
      EmptyQueryMatches(clients[i]);
    }
    Seqs.FilterSameTest(clients, (c: Client) => Shown(Only(status), "", c), (c: Client) => c.status == status);
  }

  /** The badge numbers of the five tabs. */
  datatype FilterCounts = FilterCounts(all: nat, active: nat, needsAttention: nat, overdue: nat, inactive: nat)

  /** `filterCounts`. */
  function Counts(clients: seq<Client>): (n: FilterCounts)
    ensures n.all == |clients|
    ensures n.active <= n.all && n.needsAttention <= n.all && n.overdue <= n.all && n.inactive <= n.all
  {
    FilterCounts(
      |clients|,
      |WithStatus(clients, Active)|,
      |WithStatus(clients, NeedsAttention)|,
      |WithStatus(clients, Overdue)|,
      |WithStatus(clients, Inactive)|)
  }

  /** Every client has exactly one of the four statuses, so the four status badges add up to the "all" badge. */
  lemma {:induction false} StatusCountsSum(clients: seq<Client>)
    ensures var n := Counts(clients); n.active + n.needsAttention + n.overdue + n.inactive == n.all
  {
    if clients != [] {
      StatusCountsSum(clients[1..]);
    }
  }

  /** The number of clients shown on a status tab with no search text is that tab's badge number. */
  lemma StatusTabMatchesBadge(clients: seq<Client>, status: ClientStatus)
    ensures |FilteredClients(clients, Only(status), "")| ==
      match status
      case Active => Counts(clients).active
      case NeedsAttention => Counts(clients).needsAttention
      case Overdue => Counts(clients).overdue
      case Inactive => Counts(clients).inactive
  {
    StatusTabShowsStatus(clients, status);
  }

  /** Each status badge counts exactly the clients of that status, which are all in the roster. */
  lemma WithStatusSpec(clients: seq<Client>, status: ClientStatus)
    ensures forall c :: c in WithStatus(clients, status) <==> c in clients && c.status == status
    ensures |WithStatus(clients, status)| == Seqs.Count(clients, (c: Client) => c.status == status)
  {
    var keep := (c: Client) => c.status == status;
    Seqs.FilterSpec(clients, keep);
    Seqs.FilterLength(clients, keep, (c: Client) => c.status != status);
  }
}
