/** Announcements: public ones (no member) and ones addressed to a single
    member, each shown while it is active and inside its date window, and
    pushed on a channel named after its audience. */
module AnnouncementController {
  import opened Wrappers
  import opened Text
  import opened Ordering
  import opened Entities
  import opened Data

  // ----- the audience channel -----

  const PublicChannel: string := "announcement.public"
  const UserChannelPrefix: string := "announcement.user."

  /** The push channel of an announcement: per member, or the public one. */
  function Channel(memberId: Option<int>): string {
    match memberId
    case None => PublicChannel
    case Some(m) => UserChannelPrefix + IntToString(m)
  }

  /** Reads the audience back from a channel name; `None` for a name that is
      no announcement channel. */
  function ChannelAudience(channel: string): Option<Option<int>> {
    if channel == PublicChannel then Some(None)
    else if |UserChannelPrefix| <= |channel| && channel[..|UserChannelPrefix|] == UserChannelPrefix then
      match ParseLong(Some(channel[|UserChannelPrefix|..]))
      case None => None
      case Some(m) => Some(Some(m))
    else None
  }

  /** Every audience is read back from its channel name. */
  lemma ChannelRoundTrip(memberId: Option<int>)
    requires memberId.Some? ==> MinLong <= memberId.value <= MaxLong
    ensures ChannelAudience(Channel(memberId)) == Some(memberId)
  {
    if memberId.Some? {
      var c := Channel(memberId);
      assert c[13] == 'u' && PublicChannel[13] == 'p';
      assert c[..|UserChannelPrefix|] == UserChannelPrefix;
      assert c[|UserChannelPrefix|..] == IntToString(memberId.value);
      ParseLongRoundTrip(memberId.value);
    }
  }

  /** Different audiences never share a channel. */
  lemma ChannelInjective(a: Option<int>, b: Option<int>)
    requires a.Some? ==> MinLong <= a.value <= MaxLong
    requires b.Some? ==> MinLong <= b.value <= MaxLong
    ensures Channel(a) == Channel(b) ==> a == b
  {
    ChannelRoundTrip(a);
    ChannelRoundTrip(b);
  }

  // ----- creating -----

  /** The request body for a create or an update; `memberId` is `None` for a
      public announcement. Dates are already in UTC ticks. */
  datatype AnnouncementInput = AnnouncementInput(
    memberId: Option<int>, title: string, message: string,
    startDate: Ticks, endDate: Ticks, isActive: bool)

  /** The create-time checks: a title and a message with some non-white
      character, and both dates supplied (not `default(DateTime)`). */
  predicate CreateValid(dto: AnnouncementInput) {
    && !IsNullOrWhiteSpace(Some(dto.title))
    && !IsNullOrWhiteSpace(Some(dto.message))
    && dto.startDate != DefaultDate
    && dto.endDate != DefaultDate
  }

  /** The audience is everyone, or a member on record: the announcement's
      member key is a foreign key into the members table. */
  predicate AudienceOnRecord(members: seq<Member>, memberId: Option<int>) {
    memberId.None? || MemberIndex(members, memberId.value).Some?
  }

  /** `CreateAnnouncement`: refuses a blank title or message and a missing
      date, storing nothing; an audience that is no member breaks the
      foreign key when saving, which throws, and nothing is stored; otherwise
      stores the announcement and names the channel it is pushed on. */
  method CreateAnnouncement(db: AppDbContext, dto: AnnouncementInput, now: Ticks)
    returns (status: Status, channel: Option<string>)
    modifies db`announcements, db`nextId
    ensures !CreateValid(dto) ==>
      && status == BadRequest && channel.None?
      && db.announcements == old(db.announcements) && db.nextId == old(db.nextId)
    ensures CreateValid(dto) && !AudienceOnRecord(db.members, dto.memberId) ==>
      && status == ServerError && channel.None?
      && db.announcements == old(db.announcements) && db.nextId == old(db.nextId)
    ensures CreateValid(dto) && AudienceOnRecord(db.members, dto.memberId) ==>
      && status == Ok
      && channel == Some(Channel(dto.memberId))
      && db.nextId == old(db.nextId) + 1
      && db.announcements == old(db.announcements) + [Announcement(old(db.nextId), dto.memberId, dto.title,
           dto.message, dto.startDate, dto.endDate, dto.isActive, now, now)]
  {
    if IsNullOrWhiteSpace(Some(dto.title)) || IsNullOrWhiteSpace(Some(dto.message)) {
      return BadRequest, None;
    }
    if dto.startDate == DefaultDate || dto.endDate == DefaultDate {
      return BadRequest, None;
    }
    if dto.memberId.Some? && MemberIndex(db.members, dto.memberId.value).None? {
      return ServerError, None;
    }
    var id := db.NewId();
    var model := Announcement(id, dto.memberId, dto.title, dto.message, dto.startDate, dto.endDate,
                              dto.isActive, now, now);
    db.announcements := db.announcements + [model];
    var name := if model.memberId.Some? then UserChannelPrefix + IntToString(model.memberId.value) else PublicChannel;
    status, channel := Ok, Some(name);
  }

  // ----- what a member sees -----

  /** Addressed to everyone or to the member, switched on, and inside its
      date window (both ends included). */
  predicate Visible(a: Announcement, memberId: int, now: Ticks) {
    && (a.memberId.None? || a.memberId == Some(memberId))
    && a.isActive
    && a.startDate <= now
    && a.endDate >= now
  }

  predicate NewerAnnouncementFirst(a: Announcement, b: Announcement) {
    a.createdAt >= b.createdAt
  }

  lemma NewerAnnouncementFirstIsPreorder()
    ensures TotalPreorder(NewerAnnouncementFirst)
  {
  }

  const LatestCount: nat := 5

  /** The `Where` of the `/my` query. */
  function VisibleTo(announcements: seq<Announcement>, memberId: int, now: Ticks): (r: seq<Announcement>)
    ensures forall a :: a in r <==> a in announcements && Visible(a, memberId, now)
  {
    Filter(announcements, (a: Announcement) => Visible(a, memberId, now))
  }

  /** The `/my` query: the visible announcements, newest first, at most five. */
  function LatestFor(announcements: seq<Announcement>, memberId: int, now: Ticks): seq<Announcement> {
    Top(VisibleTo(announcements, memberId, now), NewerAnnouncementFirst, LatestCount)
  }

  /** The `/my` result holds five announcements, or every visible one when
      fewer are visible, each visible to the member, newest first, and no
      visible announcement left out is newer than one shown. */
  lemma LatestForProperties(announcements: seq<Announcement>, memberId: int, now: Ticks)
    ensures var r := LatestFor(announcements, memberId, now);
      var visible := VisibleTo(announcements, memberId, now);
      && |r| == (if |visible| <= LatestCount then |visible| else LatestCount)
      && Sorted(r, NewerAnnouncementFirst)
      && (forall a :: a in r ==> a in announcements && Visible(a, memberId, now))
      && (forall a, b :: a in announcements && Visible(a, memberId, now) && a !in r && b in r ==>
            b.createdAt >= a.createdAt)
  {
    var visible := VisibleTo(announcements, memberId, now);
    var r := LatestFor(announcements, memberId, now);
    NewerAnnouncementFirstIsPreorder();
    TopProperties(visible, NewerAnnouncementFirst, LatestCount);
    forall a, b | a in announcements && Visible(a, memberId, now) && a !in r && b in r
      ensures b.createdAt >= a.createdAt
    {
      assert a in visible;
      assert NewerAnnouncementFirst(b, a);
    }
  }

  /** With five or fewer visible announcements, all of them are shown. */
  lemma LatestForComplete(announcements: seq<Announcement>, memberId: int, now: Ticks)
    requires |VisibleTo(announcements, memberId, now)| <= LatestCount
    ensures forall a :: a in announcements && Visible(a, memberId, now) ==> a in LatestFor(announcements, memberId, now)
  {
    var visible := VisibleTo(announcements, memberId, now);
    var sorted := Sort(visible, NewerAnnouncementFirst);
    assert LatestFor(announcements, memberId, now) == sorted;
    assert forall a :: a in sorted <==> a in multiset(sorted);
    assert forall a :: a in visible <==> a in multiset(visible);
  }

  /** `GetForCurrentUser`: a server error without a parseable id; otherwise
      the latest announcements the member may see. */
  function GetForCurrentUser(db: AppDbContext, user: Principal, now: Ticks): (r: Option<seq<Announcement>>)
    reads db
    ensures MemberId(user).None? ==> r.None?
    ensures MemberId(user).Some? ==> r == Some(LatestFor(db.announcements, MemberId(user).value, now))
  {
    var id := MemberId(user);
    if id.None? then None else Some(LatestFor(db.announcements, id.value, now))
  }

  /** `GetPublicAnnouncements`: exactly the announcements with no member,
      newest first. */
  function PublicAnnouncements(announcements: seq<Announcement>): (r: seq<Announcement>)
    ensures forall a :: a in r <==> a in announcements && a.memberId.None?
    ensures forall a :: multiset(r)[a] == if a.memberId.None? then multiset(announcements)[a] else 0
    ensures Sorted(r, NewerAnnouncementFirst)
  {
    NewerAnnouncementFirstIsPreorder();
    var p := (a: Announcement) => a.memberId.None?;
    FilterCount(announcements, p);
    var open := Filter(announcements, p);
    SortSorted(open, NewerAnnouncementFirst);
    var r := Sort(open, NewerAnnouncementFirst);
    assert forall a :: a in r <==> a in multiset(r);
    assert forall a :: a in open <==> a in multiset(open);
    r
  }

  // ----- changing and removing -----

  /** `Announcements.FindAsync(id)`. */
  function AnnouncementIndex(announcements: seq<Announcement>, id: int): (r: Option<nat>)
    ensures r.Some? ==> r.value < |announcements| && announcements[r.value].id == id
    ensures r.None? <==> forall k :: 0 <= k < |announcements| ==> announcements[k].id != id
  {
    FirstIndex(announcements, (a: Announcement) => a.id == id)
  }

  /** `UpdateAnnouncement`: an unknown id is NotFound; otherwise the title,
      message, dates and active flag are replaced, unchecked, and the record
      keeps its key, its audience and its creation time. */
  method UpdateAnnouncement(db: AppDbContext, id: int, dto: AnnouncementInput, now: Ticks)
    returns (status: Status)
    modifies db`announcements
    ensures AnnouncementIndex(old(db.announcements), id).None? ==>
      status == NotFound && db.announcements == old(db.announcements)
    ensures AnnouncementIndex(old(db.announcements), id).Some? ==>
      var k := AnnouncementIndex(old(db.announcements), id).value;
      var a := old(db.announcements)[k];
      && status == Ok
      && db.announcements == old(db.announcements)[k := Announcement(a.id, a.memberId, dto.title, dto.message,
           dto.startDate, dto.endDate, dto.isActive, a.createdAt, now)]
  {
    var k := AnnouncementIndex(db.announcements, id);
    if k.None? {
      return NotFound;
    }
    var a := db.announcements[k.value];
    a := a.(title := dto.title, message := dto.message, startDate := dto.startDate, endDate := dto.endDate,
            isActive := dto.isActive, updatedAt := now);
    db.announcements := db.announcements[k.value := a];
    status := Ok;
  }

  /** `DeleteAnnouncement`: an unknown id is NotFound; otherwise exactly that
      record goes. */
  method DeleteAnnouncement(db: AppDbContext, id: int)
    returns (status: Status)
    modifies db`announcements
    ensures AnnouncementIndex(old(db.announcements), id).None? ==>
      status == NotFound && db.announcements == old(db.announcements)
    ensures AnnouncementIndex(old(db.announcements), id).Some? ==>
      status == Ok && db.announcements == RemoveAt(old(db.announcements), AnnouncementIndex(old(db.announcements), id).value)
  {
    var k := AnnouncementIndex(db.announcements, id);
    if k.None? {
      return NotFound;
    }
    db.announcements := RemoveAt(db.announcements, k.value);
    status := Ok;
  }
}
