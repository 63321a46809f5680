/**
 * The team panel: the members with access to an analysis and the invitation form. An
 * invitation is checked at once; the member is added when the sending delay ends, from the
 * e-mail, role and member list captured when the form was sent. The notifications raised
 * through `onNotify` are kept as a list, and the random id of a new member is a parameter.
 */
module Collaborators {
  import opened Wrappers
  import opened JsText

  datatype Role = Admin | Editor | Lector

  datatype Member = Member(id: string, name: string, email: string, role: Role, avatar: string)

  /** The `'success' | 'error'` type of a notification. */
  datatype NoticeKind = Success | Failure

  datatype Notice = Notice(message: string, kind: NoticeKind)

  /** The members shown before any invitation. */
  function InitialMembers(): seq<Member> {
    [
      Member("1", "Jorge Roldan", "roldanj@gps.ai", Admin, "JR"),
      Member("2", "Ana Smith", "asmith@business.com", Editor, "AS")
    ]
  }

  const InvalidEmail: string := "Correo electrónico inválido"

  function SentMessage(email: string): string {
    "Invitación enviada a " + email
  }

  /** `email.split('@')[0]`: the text before the first '@', or all of it when there is none. */
  function NameOf(email: string): (r: string)
    ensures !Contains(r, "@")
    ensures Contains(email, "@") ==> |r| < |email| && r + "@" + email[|r| + 1..] == email
    ensures !Contains(email, "@") ==> r == email
  {
    var i := IndexOf(email, "@");
    var pieces := Split(email, "@");
    SplitPieces(email, "@");
    if i >= 0 then
      assert pieces[0] == email[..i];
      assert email[i..i + 1] == "@";
      AroundOccurrence(email, "@", i);
      pieces[0]
    else
      pieces[0]
  }

  /** `email.substring(0, 2).toUpperCase()`, for ASCII letters. */
  function AvatarOf(email: string): (r: string)
    ensures |r| == if |email| < 2 then |email| else 2
    ensures forall i | 0 <= i < |r| :: r[i] == UpperChar(email[i])
  {
    if |email| < 2 then ToUpperAscii(email) else ToUpperAscii(email[..2])
  }

  /** The member an invitation adds. */
  function NewMember(id: string, email: string, role: Role): Member {
    Member(id, NameOf(email), email, role, AvatarOf(email))
  }

  /** What the delayed callback of `handleInvite` captured: the e-mail and role of the form
      and the member list, as they were when the form was sent. */
  datatype PendingInvite = PendingInvite(email: string, role: Role, members: seq<Member>)

  /** No two members share an id (the list renders with the id as key). */
  predicate DistinctIds(members: seq<Member>) {
    forall i, j | 0 <= i < j < |members| :: members[i].id != members[j].id
  }

  /** The panel's state. */
  class Team {
    var members: seq<Member>
    var inviteEmail: string
    var inviteRole: Role
    var isSending: bool
    /** The calls of `onNotify`, oldest first. */
    var notices: seq<Notice>

    constructor ()
      ensures members == InitialMembers() && inviteEmail == "" && inviteRole == Lector
      ensures !isSending && notices == []
    {
      members := InitialMembers();
      inviteEmail := "";
      inviteRole := Lector;
      isSending := false;
      notices := [];
    }

    /** Typing in the e-mail field. */
    method SetEmail(text: string)
      modifies this
      ensures inviteEmail == text
      ensures members == old(members) && inviteRole == old(inviteRole)
      ensures isSending == old(isSending) && notices == old(notices)
    {
      inviteEmail := text;
    }

    /** Picking a role. */
    method SetRole(role: Role)
      modifies this
      ensures inviteRole == role
      ensures members == old(members) && inviteEmail == old(inviteEmail)
      ensures isSending == old(isSending) && notices == old(notices)
    {
      inviteRole := role;
    }

    /** `handleInvite`, up to the delay: an address without '@' is refused with an error
        notice and nothing else changes; otherwise sending starts and the pending invitation
        is returned for the timer. */
    method Invite() returns (pending: Option<PendingInvite>)
      modifies this
      ensures members == old(members) && inviteEmail == old(inviteEmail) && inviteRole == old(inviteRole)
      ensures !Contains(old(inviteEmail), "@") ==>
        && pending == None
        && isSending == old(isSending)
        && notices == old(notices) + [Notice(InvalidEmail, Failure)]
      ensures Contains(old(inviteEmail), "@") ==>
        && pending == Some(PendingInvite(old(inviteEmail), old(inviteRole), old(members)))
        && isSending
        && notices == old(notices)
    {
      if !Contains(inviteEmail, "@") {
        notices := notices + [Notice(InvalidEmail, Failure)];
        return None;
      }
      isSending := true;
      pending := Some(PendingInvite(inviteEmail, inviteRole, members));
    }

    /** The callback of the delay: the captured list plus the new member becomes the list,
        the e-mail field is cleared, sending ends, and a success notice names the address. */
    method CompleteInvite(p: PendingInvite, newId: string)
      modifies this
      ensures members == p.members + [NewMember(newId, p.email, p.role)]
      ensures inviteEmail == "" && !isSending && inviteRole == old(inviteRole)
      ensures notices == old(notices) + [Notice(SentMessage(p.email), Success)]
    {
      var newMember := Member(newId, NameOf(p.email), p.email, p.role, AvatarOf(p.email));
      members := p.members + [newMember];
      inviteEmail := "";
      isSending := false;
      notices := notices + [Notice(SentMessage(p.email), Success)];
    }
  }

  /** Filling the form and sending it, with the delay ending before anything else happens:
      a valid address adds exactly one member, built from the address and the role, and
      leaves the field empty; an invalid one adds nobody. */
  method InviteCycle(team: Team, email: string, role: Role, newId: string)
    modifies team
    ensures Contains(email, "@") ==>
      && team.members == old(team.members) + [NewMember(newId, email, role)]
      && team.inviteEmail == "" && team.inviteRole == role && !team.isSending
      && team.notices == old(team.notices) + [Notice(SentMessage(email), Success)]
    ensures !Contains(email, "@") ==>
      && team.members == old(team.members)
      && team.inviteEmail == email && team.inviteRole == role
      && team.isSending == old(team.isSending)
      && team.notices == old(team.notices) + [Notice(InvalidEmail, Failure)]
  {
    team.SetEmail(email);
    team.SetRole(role);
    var pending := team.Invite();
    if pending.Some? {
      team.CompleteInvite(pending.value, newId);
    }
  }

  // ---------------------------------------------------------------------------------------
  // Properties
  // ---------------------------------------------------------------------------------------

  /** The new member's name and address agree: the address is the name, an '@', and the
      domain, and the name has no '@' of its own; a name of two characters or more gives
      the avatar its two letters. */
  lemma NewMemberFields(id: string, email: string, role: Role)
    requires Contains(email, "@")
    ensures var m := NewMember(id, email, role);
      && m.email == email && m.role == role && m.id == id
      && (exists domain :: m.name + "@" + domain == email)
      && !Contains(m.name, "@")
      && (|m.name| >= 2 ==> m.avatar == ToUpperAscii(m.name[..2]))
  {
    var m := NewMember(id, email, role);
    var domain := email[|m.name| + 1..];
    assert m.name + "@" + domain == email;
    if |m.name| >= 2 {
      assert m.name[..2] == email[..2];
    }
  }

  /** The seeded members have distinct ids, and adding a member with an id not yet used
      keeps the ids distinct. */
  lemma FreshIdKeepsDistinct(members: seq<Member>, m: Member)
    requires DistinctIds(members)
    requires forall i | 0 <= i < |members| :: members[i].id != m.id
    ensures DistinctIds(members + [m])
    ensures DistinctIds(InitialMembers())
  {
  }

  /** A clash: two members with the same id when the random id repeats one in use. */
  lemma RepeatedIdClashes(members: seq<Member>, k: int, email: string, role: Role)
    requires 0 <= k < |members|
    ensures !DistinctIds(members + [NewMember(members[k].id, email, role)])
  {
    var extended := members + [NewMember(members[k].id, email, role)];
    assert extended[k].id == extended[|members|].id;
  }
}
