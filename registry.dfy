/**
 * The profile registry (`accepted_profiles`): for each periodic-data profile id,
 * the versions it accepts and the exact frame length of each.
 */
module Registry {
  import opened Base

  datatype VersionEntry = VersionEntry(version: nat, length: nat)

  datatype ProfileEntry = ProfileEntry(id: nat, versions: seq<VersionEntry>)

  /** The static table, in the source's order. */
  const AcceptedProfiles: seq<ProfileEntry> := [
    ProfileEntry(0, [VersionEntry(1, 50)]),
    ProfileEntry(1, [VersionEntry(1, 50)]),
    ProfileEntry(2, [VersionEntry(1, 50)]),
    ProfileEntry(3, [VersionEntry(1, 50)]),
    ProfileEntry(4, [VersionEntry(1, 50)]),
    ProfileEntry(5, [VersionEntry(1, 44)]),
    ProfileEntry(6, [VersionEntry(1, 50)]),
    ProfileEntry(7, [VersionEntry(1, 50)])
  ]

  /**
   * The versions of the LAST entry of `table` whose id is `profile`: the scan
   * over the table has no break, so a later match overwrites an earlier one.
   */
  function FindVersions(table: seq<ProfileEntry>, profile: nat): (r: Option<seq<VersionEntry>>)
    ensures r.None? <==> forall k :: 0 <= k < |table| ==> table[k].id != profile
    ensures r.Some? ==> exists k :: 0 <= k < |table| && table[k].id == profile && r.value == table[k].versions
  {
    if table == [] then None
    else if table[|table| - 1].id == profile then Some(table[|table| - 1].versions)
    else FindVersions(table[..|table| - 1], profile)
  }

  /** The length of the LAST entry of `versions` whose version is `version`. */
  function FindLength(versions: seq<VersionEntry>, version: nat): (r: Option<nat>)
    ensures r.None? <==> forall k :: 0 <= k < |versions| ==> versions[k].version != version
    ensures r.Some? ==> exists k :: 0 <= k < |versions| && versions[k].version == version && r.value == versions[k].length
  {
    if versions == [] then None
    else if versions[|versions| - 1].version == version then Some(versions[|versions| - 1].length)
    else FindLength(versions[..|versions| - 1], version)
  }

  /** Reference: the frame length the registry fixes for (profile, version), if any. */
  function ExpectedLength(profile: nat, version: nat): Option<nat>
  {
    if profile <= 7 && version == 1 then Some(if profile == 5 then 44 else 50) else None
  }

  /** Every id and every (id, version) pair occurs once, so no lookup is ambiguous. */
  lemma RegistryUnambiguous()
    ensures forall i, j :: 0 <= i < j < |AcceptedProfiles| ==> AcceptedProfiles[i].id != AcceptedProfiles[j].id
    ensures forall i :: 0 <= i < |AcceptedProfiles| ==> |AcceptedProfiles[i].versions| == 1
  {
  }

  /**
   * The two-stage lookup: the profile stage succeeds exactly for ids 0 to 7,
   * and then the version stage gives the registry's length.
   */
  lemma {:induction false} LookupMatchesTable(profile: nat, version: nat)
    ensures FindVersions(AcceptedProfiles, profile).Some? <==> profile <= 7
    ensures FindVersions(AcceptedProfiles, profile).Some? ==>
      FindLength(FindVersions(AcceptedProfiles, profile).value, version) == ExpectedLength(profile, version)
  {
    var t := AcceptedProfiles;
    if profile <= 7 {
      assert t[profile].id == profile;
      FindVersionsOfMatch(t, profile, profile);
      assert FindVersions(t, profile).value == [VersionEntry(1, if profile == 5 then 44 else 50)];
    } else {
      assert forall k :: 0 <= k < |t| ==> t[k].id == k;
    }
  }

  /** With distinct ids, the lookup finds the one matching entry. */
  lemma {:induction false} FindVersionsOfMatch(table: seq<ProfileEntry>, profile: nat, k: nat)
    requires k < |table| && table[k].id == profile
    requires forall i, j :: 0 <= i < j < |table| ==> table[i].id != table[j].id
    ensures FindVersions(table, profile) == Some(table[k].versions)
  {
    if k < |table| - 1 {
      FindVersionsOfMatch(table[..|table| - 1], profile, k);
    }
  }
}
