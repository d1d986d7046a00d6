/**
 * The profile list of internal/config/profile.go. The configuration store
 * (viper) is modelled by the fields of `ProfileStore`: the `profiles` list,
 * the `default_profile` key and a counter of `WriteConfig` calls, which stands
 * for the configuration file being rewritten.
 */
module Profiles {
  import opened Wrappers

  datatype Profile = Profile(name: string, server: string, username: string, password: string)

  /** Go's zero value `Profile{}`. */
  const ZeroProfile: Profile := Profile("", "", "", "")

  datatype ProfileNotFoundError = ProfileNotFoundError(name: string)

  const NotFoundPrefix: string := "Profile not found: "

  /** `(*ProfileNotFoundError).Error()`: the prefix followed by the missing name. */
  function ErrorMessage(e: ProfileNotFoundError): (m: string)
    ensures |m| == |NotFoundPrefix| + |e.name|
    ensures m[..|NotFoundPrefix|] == NotFoundPrefix && m[|NotFoundPrefix|..] == e.name
  {
    NotFoundPrefix + e.name
  }

  /** Two errors with the same message name the same profile. */
  lemma ErrorMessageInjective(a: ProfileNotFoundError, b: ProfileNotFoundError)
    requires ErrorMessage(a) == ErrorMessage(b)
    ensures a == b
  {
    assert a.name == ErrorMessage(a)[|NotFoundPrefix|..];
  }

  /** The position of the first profile called `name`, if any. */
  function FindIndex(profiles: seq<Profile>, name: string): (r: Option<nat>)
    ensures r.Some? ==> r.value < |profiles| && profiles[r.value].name == name
    ensures r.Some? ==> forall j :: 0 <= j < r.value ==> profiles[j].name != name
    ensures r.None? ==> forall j :: 0 <= j < |profiles| ==> profiles[j].name != name
  {
    if profiles == [] then None
    else if profiles[0].name == name then Some(0)
    else
      match FindIndex(profiles[1..], name)
      case None => None
      case Some(i) => Some(i + 1)
  }

  /** How many profiles are called `name`. */
  function Count(profiles: seq<Profile>, name: string): nat {
    if profiles == [] then 0
    else (if profiles[0].name == name then 1 else 0) + Count(profiles[1..], name)
  }

  /** The list with every profile called `name` taken out, the others in order. */
  function Without(profiles: seq<Profile>, name: string): (r: seq<Profile>)
    ensures forall j :: 0 <= j < |r| ==> r[j].name != name
    ensures |r| == |profiles| - Count(profiles, name)
  {
    if profiles == [] then []
    else if profiles[0].name == name then Without(profiles[1..], name)
    else [profiles[0]] + Without(profiles[1..], name)
  }

  /** A name that occurs once is removed by cutting out exactly its entry. */
  lemma {:induction false} WithoutSingle(profiles: seq<Profile>, name: string, k: nat)
    requires k < |profiles| && profiles[k].name == name
    requires Count(profiles, name) == 1
    ensures Without(profiles, name) == profiles[..k] + profiles[k + 1..]
  {
    if k == 0 {
      WithoutAbsent(profiles[1..], name);
    } else {
      assert profiles[0].name != name by {
        if profiles[0].name == name {
          CountPositive(profiles[1..], name, k - 1);
        }
      }
      WithoutSingle(profiles[1..], name, k - 1);
      assert profiles[..k] == [profiles[0]] + profiles[1..][..k - 1];
      assert profiles[k + 1..] == profiles[1..][k..];
    }
  }

  lemma {:induction false} CountPositive(profiles: seq<Profile>, name: string, k: nat)
    requires k < |profiles| && profiles[k].name == name
    ensures Count(profiles, name) >= 1
  {
    if k > 0 {
      CountPositive(profiles[1..], name, k - 1);
    }
  }

  /** Removing an absent name leaves the list as it was. */
  lemma {:induction false} WithoutAbsent(profiles: seq<Profile>, name: string)
    requires Count(profiles, name) == 0
    ensures Without(profiles, name) == profiles
  {
    if profiles != [] {
      WithoutAbsent(profiles[1..], name);
      assert profiles == [profiles[0]] + profiles[1..];
    }
  }

  class ProfileStore {
    /** The `profiles` key. */
    var profiles: seq<Profile>
    /** The `default_profile` key. */
    var defaultProfile: string
    /** How many times the configuration has been written back (`viper.WriteConfig`). */
    var writes: nat

    constructor (profiles: seq<Profile>, defaultProfile: string)
      ensures this.profiles == profiles && this.defaultProfile == defaultProfile && writes == 0
    {
      this.profiles := profiles;
      this.defaultProfile := defaultProfile;
      writes := 0;
    }

    /** GetProfiles: the stored list as it is. */
    function GetProfiles(): (ps: seq<Profile>)
      reads this
      ensures ps == profiles
    {
      profiles
    }

    /** GetDefaultProfileName: the stored `default_profile` value, unchanged. */
    method GetDefaultProfileName() returns (name: string)
      ensures name == defaultProfile
    {
      name := defaultProfile;
    }

    /**
     * GetDefaultProfile: the first profile whose name is `default_profile`,
     * or the zero profile when none is.
     */
    method GetDefaultProfile() returns (p: Profile)
      ensures p == (match FindIndex(profiles, defaultProfile)
                    case Some(k) => profiles[k]
                    case None => ZeroProfile)
    {
      var wanted := defaultProfile;
      for i := 0 to |profiles|
        invariant forall j :: 0 <= j < i ==> profiles[j].name != wanted
      {
        if profiles[i].name == wanted {
          return profiles[i];
        }
      }
      return ZeroProfile;
    }

    /**
     * SetDefaultProfile: on a known name, sets `default_profile` and writes the
     * configuration only when `commit` is set; on an unknown name, reports
     * ProfileNotFoundError and changes nothing.
     */
    method SetDefaultProfile(name: string, commit: bool) returns (err: Option<ProfileNotFoundError>)
      modifies this
      ensures profiles == old(profiles)
      ensures err.None? <==> FindIndex(profiles, name).Some?
      ensures err.Some? ==> err.value == ProfileNotFoundError(name)
      ensures err.Some? ==> defaultProfile == old(defaultProfile) && writes == old(writes)
      ensures err.None? ==> defaultProfile == name
      ensures err.None? ==> writes == old(writes) + (if commit then 1 else 0)
    {
      for i := 0 to |profiles|
        invariant forall j :: 0 <= j < i ==> profiles[j].name != name
        invariant defaultProfile == old(defaultProfile) && writes == old(writes)
      {
        if profiles[i].name == name {
          defaultProfile := name;
          if commit {
            writes := writes + 1;
          }
          return None;
        }
      }
      return Some(ProfileNotFoundError(name));
    }

    /**
     * AddProfile: appends the new profile without looking for duplicates,
     * makes it the default only when asked, writes the configuration and
     * returns the appended entry.
     */
    method AddProfile(name: string, isDefault: bool, server: string, username: string, password: string)
      returns (added: Profile)
      modifies this
      ensures added == Profile(name, server, username, password)
      ensures profiles == old(profiles) + [added]
      ensures defaultProfile == (if isDefault then name else old(defaultProfile))
      ensures writes == old(writes) + 1
    {
      profiles := profiles + [Profile(name, server, username, password)];
      if isDefault {
        defaultProfile := name;
      }
      writes := writes + 1;
      added := profiles[|profiles| - 1];
    }

    /**
     * RemoveProfile: takes the profile called `name` out of the list, keeping
     * the others in order, and writes the configuration. The loop re-slices
     * the list while ranging over the original; a name that occurs twice
     * makes it skip entries or fail, so callers keep names unique.
     */
    method RemoveProfile(name: string)
      requires Count(profiles, name) <= 1
      modifies this
      ensures profiles == Without(old(profiles), name)
      ensures defaultProfile == old(defaultProfile)
      ensures writes == old(writes) + 1
    {
      var original := profiles;
      var current := original;
      ghost var removedAt: Option<nat> := None;
      for i := 0 to |original|
        invariant removedAt.None? ==> current == original
        invariant removedAt.None? ==> forall j :: 0 <= j < i ==> original[j].name != name
        invariant removedAt.Some? ==> removedAt.value < i && original[removedAt.value].name == name
        invariant removedAt.Some? ==> current == original[..removedAt.value] + original[removedAt.value + 1..]
        invariant removedAt.Some? ==> forall j :: removedAt.value < j < i ==> original[j].name != name
        invariant defaultProfile == old(defaultProfile) && writes == old(writes)
      {
        if original[i].name == name {
          if removedAt.Some? {
            OccursTwice(original, name, removedAt.value, i);
          }
          current := current[..i] + current[i + 1..];
          removedAt := Some(i);
        }
      }
      match removedAt {
        case None =>
          NoneNamed(original, name);
          WithoutAbsent(original, name);
        case Some(k) =>
          CountPositive(original, name, k);
          WithoutSingle(original, name, k);
      }
      profiles := current;
      writes := writes + 1;
    }
  }

  lemma {:induction false} NoneNamed(profiles: seq<Profile>, name: string)
    requires forall j :: 0 <= j < |profiles| ==> profiles[j].name != name
    ensures Count(profiles, name) == 0
  {
    if profiles != [] {
      NoneNamed(profiles[1..], name);
    }
  }

  lemma {:induction false} OccursTwice(profiles: seq<Profile>, name: string, a: nat, b: nat)
    requires a < b < |profiles| && profiles[a].name == name && profiles[b].name == name
    ensures Count(profiles, name) >= 2
  {
    if a == 0 {
      CountPositive(profiles[1..], name, b - 1);
    } else {
      OccursTwice(profiles[1..], name, a - 1, b - 1);
    }
  }
}
