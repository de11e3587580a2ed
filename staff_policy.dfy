/**
  The bot-staff configuration (`config.client.staff`) and the bypass policies
  built from it: `getStaffGuildAdminBypass`, `userIsStaffOrBypassable` and
  `userHasGuildAdminOrBypassable`
  (src/events/message/9_processPrefixCommand.ts, lines 20-44).
 */
module StaffPolicy {
  import opened Wrappers
  import opened Permissions

  /** One `BYPASSED` entry: the users exempt from the restrictions of one command. */
  datatype BypassEntry = BypassEntry(commandName: string, userIds: seq<string>)

  /** `IGNORES_GUILD_ADMIN`: which staff skip the guild-admin check. */
  datatype IgnoresGuildAdmin = IgnoresGuildAdmin(allStaff: bool, owner: bool, members: bool, bypassed: bool)

  datatype StaffConfig = StaffConfig(
    ownerId: string,
    members: seq<string>,
    bypassed: seq<BypassEntry>,
    ignoresGuildAdmin: IgnoresGuildAdmin)

  /** `BYPASSED.find(b => b.COMMAND_NAME === commandName)`, as the index of the
      first entry for the command. */
  function FindBypass(entries: seq<BypassEntry>, commandName: string): (r: Option<nat>)
    ensures r.Some? ==> r.value < |entries| && entries[r.value].commandName == commandName
    ensures r.Some? ==> forall j :: 0 <= j < r.value ==> entries[j].commandName != commandName
    ensures r.None? ==> forall j :: 0 <= j < |entries| ==> entries[j].commandName != commandName
  {
    if entries == [] then None
    else if entries[0].commandName == commandName then Some(0)
    else match FindBypass(entries[1..], commandName)
      case None => None
      case Some(i) => Some(i + 1)
  }

  /** `bypass ? bypass.USER_IDS : []`: the users of the first entry for the command. */
  function BypassIds(staff: StaffConfig, commandName: string): seq<string> {
    match FindBypass(staff.bypassed, commandName)
    case None => []
    case Some(i) => staff.bypassed[i].userIds
  }

  /** `[OWNER_ID, ...MEMBERS, ...(bypass ? bypass.USER_IDS : [])]`. */
  function StaffList(staff: StaffConfig, commandName: string): seq<string> {
    [staff.ownerId] + staff.members + BypassIds(staff, commandName)
  }

  /** The list `getStaffGuildAdminBypass` returns: with `AllStaff` the whole staff
      list, otherwise the parts whose flags are set, in owner, members, bypass order. */
  function GuildAdminBypass(staff: StaffConfig, commandName: string): (r: seq<string>)
    ensures forall id :: id in r <==>
      if staff.ignoresGuildAdmin.allStaff then id in StaffList(staff, commandName)
      else
        || (staff.ignoresGuildAdmin.owner && id == staff.ownerId)
        || (staff.ignoresGuildAdmin.members && id in staff.members)
        || (staff.ignoresGuildAdmin.bypassed && id in BypassIds(staff, commandName))
  {
    var flags := staff.ignoresGuildAdmin;
    if flags.allStaff then StaffList(staff, commandName)
    else
      (if flags.owner then [staff.ownerId] else [])
      + (if flags.members then staff.members else [])
      + (if flags.bypassed then BypassIds(staff, commandName) else [])
  }

  /** `getStaffGuildAdminBypass(commandName)`: builds the list by successive pushes. */
  method GetStaffGuildAdminBypass(staff: StaffConfig, commandName: string) returns (result: seq<string>)
    ensures result == GuildAdminBypass(staff, commandName)
    ensures forall id :: id in result ==> id in StaffList(staff, commandName)
  {
    result := [];
    var bypass := FindBypass(staff.bypassed, commandName);
    var bypassIds := if bypass.Some? then staff.bypassed[bypass.value].userIds else [];
    assert bypassIds == BypassIds(staff, commandName);

    if staff.ignoresGuildAdmin.allStaff {
      return [staff.ownerId] + staff.members + bypassIds;
    }
    if staff.ignoresGuildAdmin.owner {
      result := result + [staff.ownerId];
    }
    if staff.ignoresGuildAdmin.members {
      result := result + staff.members;
    }
    if staff.ignoresGuildAdmin.bypassed {
      result := result + bypassIds;
    }
    forall id | id in result ensures id in StaffList(staff, commandName) {
      GuildAdminBypassIsStaff(staff, commandName, id);
    }
  }

  /** `userIsStaffOrBypassable`: the author is the owner, a staff member, or
      listed in the first bypass entry for the command. */
  function UserIsStaffOrBypassable(staff: StaffConfig, commandName: string, authorId: string): (b: bool)
    ensures b <==>
      || authorId == staff.ownerId
      || authorId in staff.members
      || (exists i :: FindBypass(staff.bypassed, commandName) == Some(i) && authorId in staff.bypassed[i].userIds)
  {
    authorId in StaffList(staff, commandName)
  }

  /** `userHasGuildAdminOrBypassable`: the caller holds Administrator, or is in
      the guild-admin bypass list; without a member record only the list counts. */
  function UserHasGuildAdminOrBypassable(staff: StaffConfig, commandName: string, member: Option<Member>, authorId: string): (b: bool)
    ensures b <==> (member.Some? && Has(member.value, Administrator)) || authorId in GuildAdminBypass(staff, commandName)
    ensures member.None? ==> (b <==> authorId in GuildAdminBypass(staff, commandName))
    ensures member.Some? && Has(member.value, Administrator) ==> b
    ensures b && !UserIsStaffOrBypassable(staff, commandName, authorId) ==> member.Some? && Has(member.value, Administrator)
  {
    var hasAdmin := member.Some? && Has(member.value, Administrator);
    var canBypass := authorId in GuildAdminBypass(staff, commandName);
    hasAdmin || canBypass
  }

  /** With `AllStaff` set, the other three flags make no difference and the list
      is exactly the staff list. */
  lemma AllStaffOverridesFlags(staff: StaffConfig, commandName: string, owner: bool, members: bool, bypassed: bool)
    requires staff.ignoresGuildAdmin.allStaff
    ensures
      var other := staff.(ignoresGuildAdmin := IgnoresGuildAdmin(true, owner, members, bypassed));
      GuildAdminBypass(other, commandName) == GuildAdminBypass(staff, commandName) == StaffList(staff, commandName)
  {
  }

  /** With every flag off nobody bypasses the guild-admin check. */
  lemma NoFlagsNoBypass(staff: StaffConfig, commandName: string)
    requires staff.ignoresGuildAdmin == IgnoresGuildAdmin(false, false, false, false)
    ensures GuildAdminBypass(staff, commandName) == []
  {
  }

  /** Whatever the flags, only staff of the command can bypass the guild-admin check. */
  lemma GuildAdminBypassIsStaff(staff: StaffConfig, commandName: string, id: string)
    requires id in GuildAdminBypass(staff, commandName)
    ensures UserIsStaffOrBypassable(staff, commandName, id)
  {
    var flags := staff.ignoresGuildAdmin;
    if !flags.allStaff {
      var ownerPart := if flags.owner then [staff.ownerId] else [];
      var membersPart := if flags.members then staff.members else [];
      var bypassPart := if flags.bypassed then BypassIds(staff, commandName) else [];
      assert id in ownerPart || id in membersPart || id in bypassPart;
    }
  }

  /** `find` stops at the first entry for the command: appending entries never
      changes which entry is found once one exists. */
  lemma {:induction false} FindBypassIgnoresLaterEntries(entries: seq<BypassEntry>, more: seq<BypassEntry>, commandName: string)
    requires FindBypass(entries, commandName).Some?
    ensures FindBypass(entries + more, commandName) == FindBypass(entries, commandName)
  {
    if entries[0].commandName != commandName {
      assert (entries + more)[1..] == entries[1..] + more;
      FindBypassIgnoresLaterEntries(entries[1..], more, commandName);
    }
  }

  /** Only the first bypass entry for a command counts: a later entry with the
      same command name grants nothing. */
  lemma OnlyFirstEntryCounts(staff: StaffConfig, commandName: string, later: seq<string>, id: string)
    requires FindBypass(staff.bypassed, commandName).Some?
    ensures
      var more := staff.(bypassed := staff.bypassed + [BypassEntry(commandName, later)]);
      UserIsStaffOrBypassable(more, commandName, id) == UserIsStaffOrBypassable(staff, commandName, id)
  {
    FindBypassIgnoresLaterEntries(staff.bypassed, [BypassEntry(commandName, later)], commandName);
  }
}
