/**
 * Shareable public links: a link record is minted with an optional expiry and
 * an optional access quota, validated on every lookup, counted on each access
 * and revoked by deactivation. The document collection `publicLinks` is a map
 * from link id to record; times are milliseconds passed in by the caller.
 */
module PublicLinks {
  import opened Domain

  /** Milliseconds in one day, the unit `expiresInDays` is counted in. */
  const MsPerDay: int := 86_400_000

  datatype LinkType = ClientLink | ProgramLink | ProgressLink

  function TypeName(t: LinkType): string {
    match t
    case ClientLink => "client"
    case ProgramLink => "program"
    case ProgressLink => "progress"
  }

  datatype PublicLink = PublicLink(
    id: string,
    linkType: LinkType,
    resourceId: string,
    createdBy: string,
    createdAt: int,
    expiresAt: Option<int>,
    accessCount: int,
    maxAccess: Option<int>,
    isActive: bool)

  /** JavaScript truthiness of an optional number: present and not zero. */
  predicate Truthy(n: Option<int>) {
    n.Some? && n.value != 0
  }

  /** The expiry instant of a link minted at `now`; none when `expiresInDays` is absent or 0. */
  function ExpiryFor(now: int, expiresInDays: Option<int>): (r: Option<int>)
    ensures r.Some? <==> Truthy(expiresInDays)
    ensures r.Some? ==> r.value - now == expiresInDays.value * MsPerDay
  {
    if Truthy(expiresInDays) then Some(now + expiresInDays.value * MsPerDay) else None
  }

  /** The record `generatePublicLink` stores. */
  function NewLink(linkId: string, t: LinkType, resourceId: string, userId: string, now: int,
                   expiresInDays: Option<int>, maxAccess: Option<int>): (l: PublicLink)
    ensures l.id == linkId && l.linkType == t && l.resourceId == resourceId
    ensures l.createdBy == userId && l.createdAt == now
    ensures l.accessCount == 0 && l.isActive && l.maxAccess == maxAccess
    ensures l.expiresAt == ExpiryFor(now, expiresInDays)
  {
    PublicLink(linkId, t, resourceId, userId, now, ExpiryFor(now, expiresInDays), 0, maxAccess, true)
  }

  /** The shareable address of a link: `<origin>/public/<type>/<linkId>`. */
  function LinkUrl(origin: string, t: LinkType, linkId: string): (url: string)
    ensures |url| == |origin| + |"/public/"| + |TypeName(t)| + 1 + |linkId|
    ensures url[..|origin|] == origin
    ensures url[|origin|..|url| - |linkId|] == "/public/" + TypeName(t) + "/"
    ensures url[|url| - |linkId|..] == linkId
  {
    origin + "/public/" + TypeName(t) + "/" + linkId
  }

  /** One URL never names two links: the link id can be read back from the address. */
  lemma LinkUrlInjective(origin: string, t: LinkType, id1: string, id2: string)
    requires LinkUrl(origin, t, id1) == LinkUrl(origin, t, id2)
    ensures id1 == id2
  {
    var u := LinkUrl(origin, t, id1);
    assert |id1| == |id2|;
    assert id1 == u[|u| - |id1|..] == id2;
  }

  predicate Expired(link: PublicLink, now: int) {
    link.expiresAt.Some? && link.expiresAt.value < now
  }

  predicate QuotaUsed(link: PublicLink) {
    Truthy(link.maxAccess) && link.accessCount >= link.maxAccess.value
  }

  /**
   * `getPublicLink`: the stored record, or None when it is missing, inactive,
   * expired strictly before `now`, or out of accesses.
   */
  function Resolve(docs: map<string, PublicLink>, linkId: string, now: int): (r: Option<PublicLink>)
    ensures r.Some? <==>
      linkId in docs && docs[linkId].isActive && !Expired(docs[linkId], now) && !QuotaUsed(docs[linkId])
    ensures r.Some? ==> r.value == docs[linkId]
  {
    if linkId !in docs then None
    else
      var link := docs[linkId];
      if !link.isActive then None
      else if link.expiresAt.Some? && link.expiresAt.value < now then None
      else if Truthy(link.maxAccess) && link.accessCount >= link.maxAccess.value then None
      else Some(link)
  }

  /** The store after `incrementAccessCount(linkId)`. */
  function Incremented(docs: map<string, PublicLink>, linkId: string): (d: map<string, PublicLink>)
    ensures d.Keys == docs.Keys
    ensures linkId in docs ==> d[linkId] == docs[linkId].(accessCount := docs[linkId].accessCount + 1)
    ensures forall k :: k in docs && k != linkId ==> d[k] == docs[k]
    ensures linkId !in docs ==> d == docs
  {
    if linkId in docs then docs[linkId := docs[linkId].(accessCount := docs[linkId].accessCount + 1)]
    else docs
  }

  /** The store after `deactivatePublicLink(linkId)`. */
  function Deactivated(docs: map<string, PublicLink>, linkId: string): (d: map<string, PublicLink>)
    ensures d.Keys == docs.Keys
    ensures linkId in docs ==> d[linkId] == docs[linkId].(isActive := false)
    ensures forall k :: k in docs && k != linkId ==> d[k] == docs[k]
    ensures linkId !in docs ==> d == docs
  {
    if linkId in docs then docs[linkId := docs[linkId].(isActive := false)] else docs
  }

  /** The store after n successive accesses of one link. */
  function IncrementedTimes(docs: map<string, PublicLink>, linkId: string, n: nat): map<string, PublicLink> {
    if n == 0 then docs else Incremented(IncrementedTimes(docs, linkId, n - 1), linkId)
  }

  /** n accesses raise the count by exactly n and touch nothing else. */
  lemma {:induction false} IncrementedTimesEffect(docs: map<string, PublicLink>, linkId: string, n: nat)
    ensures IncrementedTimes(docs, linkId, n).Keys == docs.Keys
    ensures linkId in docs ==>
      IncrementedTimes(docs, linkId, n)[linkId] == docs[linkId].(accessCount := docs[linkId].accessCount + n)
    ensures forall k :: k in docs && k != linkId ==> IncrementedTimes(docs, linkId, n)[k] == docs[k]
  {
    if n > 0 {
      IncrementedTimesEffect(docs, linkId, n - 1);
    }
  }

  /**
   * A freshly minted link with quota N > 0 resolves (while unexpired) after
   * k < N accesses, and resolves to None at any time once N accesses were counted.
   */
  lemma QuotaExhausts(docs: map<string, PublicLink>, linkId: string, t: LinkType, resourceId: string,
                      userId: string, created: int, expiresInDays: Option<int>, quota: int, k: nat, now: int)
    requires quota > 0
    ensures var store := docs[linkId := NewLink(linkId, t, resourceId, userId, created, expiresInDays, Some(quota))];
            var link := store[linkId];
            && (k < quota && !Expired(link, now) ==>
                  Resolve(IncrementedTimes(store, linkId, k), linkId, now) == Some(link.(accessCount := k)))
            && (k >= quota ==> Resolve(IncrementedTimes(store, linkId, k), linkId, now) == None)
  {
    var store := docs[linkId := NewLink(linkId, t, resourceId, userId, created, expiresInDays, Some(quota))];
    IncrementedTimesEffect(store, linkId, k);
  }

  /** Right after minting, a link resolves exactly when its expiry and quota options are not negative. */
  lemma FreshLinkResolves(docs: map<string, PublicLink>, linkId: string, t: LinkType, resourceId: string,
                          userId: string, now: int, expiresInDays: Option<int>, maxAccess: Option<int>)
    ensures var link := NewLink(linkId, t, resourceId, userId, now, expiresInDays, maxAccess);
            Resolve(docs[linkId := link], linkId, now) ==
              if (expiresInDays.Some? && expiresInDays.value < 0) || (maxAccess.Some? && maxAccess.value < 0)
              then None else Some(link)
  {
  }

  /** A deactivated link never resolves again, and deactivation is idempotent. */
  lemma DeactivatedNeverResolves(docs: map<string, PublicLink>, linkId: string, now: int)
    ensures Resolve(Deactivated(docs, linkId), linkId, now) == None
    ensures Deactivated(Deactivated(docs, linkId), linkId) == Deactivated(docs, linkId)
  {
  }

  /** Expiry is inclusive: a link is still valid at the very instant it expires, not a millisecond later. */
  lemma ExpiryIsInclusive(link: PublicLink, docs: map<string, PublicLink>)
    requires link.isActive && !QuotaUsed(link) && link.expiresAt.Some?
    ensures Resolve(docs[link.id := link], link.id, link.expiresAt.value) == Some(link)
    ensures Resolve(docs[link.id := link], link.id, link.expiresAt.value + 1) == None
  {
  }

  /** The `publicLinks` collection, updated by read-modify-write of one document. */
  class LinkStore {
    var docs: map<string, PublicLink>

    constructor(initial: map<string, PublicLink>)
      ensures docs == initial
    {
      docs := initial;
    }

    /** `generatePublicLink`: stores the new record under `linkId` (a fresh uuid) and returns its URL. */
    method Generate(t: LinkType, resourceId: string, userId: string, expiresInDays: Option<int>,
                    maxAccess: Option<int>, linkId: string, now: int, origin: string) returns (url: string)
      modifies this
      ensures docs == old(docs)[linkId := NewLink(linkId, t, resourceId, userId, now, expiresInDays, maxAccess)]
      ensures url == LinkUrl(origin, t, linkId)
    {
      var expiresAt: Option<int> := None;
      if expiresInDays.Some? && expiresInDays.value != 0 {
        expiresAt := Some(now + expiresInDays.value * MsPerDay);
      }
      var link := PublicLink(linkId, t, resourceId, userId, now, expiresAt, 0, maxAccess, true);
      docs := docs[linkId := link];
      url := origin + "/public/" + TypeName(t) + "/" + linkId;
    }

    /** `getPublicLink`: a lookup that checks validity and changes nothing. */
    method Get(linkId: string, now: int) returns (r: Option<PublicLink>)
      ensures r == Resolve(docs, linkId, now)
    {
      if linkId !in docs {
        return None;
      }
      var link := docs[linkId];
      if !link.isActive {
        return None;
      }
      if link.expiresAt.Some? && link.expiresAt.value < now {
        return None;
      }
      if link.maxAccess.Some? && link.maxAccess.value != 0 && link.accessCount >= link.maxAccess.value {
        return None;
      }
      return Some(link);
    }

    /** `incrementAccessCount`: count one access; an unknown id is ignored. */
    method IncrementAccessCount(linkId: string)
      modifies this
      ensures docs == Incremented(old(docs), linkId)
    {
      if linkId in docs {
        var link := docs[linkId];
        docs := docs[linkId := link.(accessCount := link.accessCount + 1)];
      }
    }

    /** `deactivatePublicLink`: revoke the link; an unknown id is ignored. */
    method Deactivate(linkId: string)
      modifies this
      ensures docs == Deactivated(old(docs), linkId)
    {
      if linkId in docs {
        var link := docs[linkId];
        docs := docs[linkId := link.(isActive := false)];
      }
    }
  }
}
