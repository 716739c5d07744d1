/** Publication of a repository fleet: children before their monorepository, over a remote that may
    lose any request or any reply. */
module Publication {
  import opened Sequences
  import opened Wrappers

  type Commit = string

  datatype Record = Record(fullName: string, org: string, name: string, monorepo: bool, commit: Commit)

  type Manifest = seq<Record>

  /** A remote repository: its main commit, if any, and whether its settings are the expected ones. */
  datatype Repository = Repository(main: Option<Commit>, settingsExpected: bool)

  type Repositories = map<string, Repository>

  /** What happens to one request: it is served, it is lost, or it is served and the reply is lost. */
  datatype Fault = Served | RequestLost | ReplyLost

  /** The fate of the next request and of those after it; past the end every request is served. */
  function Fate(faults: seq<Fault>): Fault {
    if faults == [] then Served else faults[0]
  }

  function Later(faults: seq<Fault>): seq<Fault> {
    if faults == [] then [] else faults[1..]
  }

  datatype PublicationError =
    | DuplicateRepositories
    | NotOneMonorepository(org: string)
    | MonorepositoryNotLast(org: string)
    | MonorepositoryNameChanged(org: string)
    | RequestFailed
    | ChildNotPublished(child: string)
    | SettingsMismatch
    | DivergentMain
    | PushRejected
    | RepositoryMissing
    | VerificationFailed

  const ALLOWED_ORGS := ["hypesiege", "streempilot"]

  // ----------------------------------------------------------------- manifests

  function OfOrg(records: seq<Record>, org: string): seq<Record> {
    if records == [] then []
    else
      OfOrg(records[..|records| - 1], org)
      + (if records[|records| - 1].org == org then [records[|records| - 1]] else [])
  }

  function Monorepositories(records: seq<Record>): seq<Record> {
    if records == [] then []
    else
      Monorepositories(records[..|records| - 1])
      + (if records[|records| - 1].monorepo then [records[|records| - 1]] else [])
  }

  function OrgError(manifest: Manifest, org: string): Option<PublicationError> {
    var records := OfOrg(manifest, org);
    var monorepos := Monorepositories(records);
    if |monorepos| != 1 then Some(NotOneMonorepository(org))
    else if records == [] || records[|records| - 1] != monorepos[0] then Some(MonorepositoryNotLast(org))
    else if monorepos[0].name != org + "-monorepo" then Some(MonorepositoryNameChanged(org))
    else None
  }

  function FullNames(manifest: Manifest): seq<string> {
    seq(|manifest|, i requires 0 <= i < |manifest| => manifest[i].fullName)
  }

  ghost predicate Topology(manifest: Manifest) {
    Distinct(FullNames(manifest)) && forall k :: 0 <= k < |ALLOWED_ORGS| ==> OrgError(manifest, ALLOWED_ORGS[k]).None?
  }

  /** The ordering and topology checks of a manifest. */
  method CheckTopology(manifest: Manifest) returns (error: Option<PublicationError>)
    ensures error.None? <==> Topology(manifest)
  {
    var names := {};
    for i := 0 to |manifest|
      invariant forall name :: name in names <==> exists k :: 0 <= k < i && manifest[k].fullName == name
      invariant forall k, j :: 0 <= k < j < i ==> manifest[k].fullName != manifest[j].fullName
    {
      if manifest[i].fullName in names {
        ghost var k :| 0 <= k < i && manifest[k].fullName == manifest[i].fullName;
        assert FullNames(manifest)[k] == FullNames(manifest)[i];
        return Some(DuplicateRepositories);
      }
      names := names + {manifest[i].fullName};
    }
    for k := 0 to |ALLOWED_ORGS|
      invariant forall j :: 0 <= j < k ==> OrgError(manifest, ALLOWED_ORGS[j]).None?
    {
      var found := OrgError(manifest, ALLOWED_ORGS[k]);
      if found.Some? {
        return found;
      }
    }
    return None;
  }

  lemma {:induction false} OfOrgMembers(records: seq<Record>, org: string, r: Record)
    ensures r in OfOrg(records, org) <==> r in records && r.org == org
  {
    if records != [] {
      OfOrgMembers(records[..|records| - 1], org, r);
    }
  }

  lemma {:induction false} MonorepositoriesMembers(records: seq<Record>, r: Record)
    ensures r in Monorepositories(records) <==> r in records && r.monorepo
  {
    if records != [] {
      MonorepositoriesMembers(records[..|records| - 1], r);
    }
  }

  /** Record `i` is the one monorepository of its organization, named after it, and no other record of the
      organization comes later. */
  ghost predicate MonorepoLast(manifest: Manifest, org: string, i: nat) {
    && i < |manifest| && manifest[i].org == org && manifest[i].monorepo && manifest[i].name == org + "-monorepo"
    && forall j :: 0 <= j < |manifest| && manifest[j].org == org && j != i ==> j < i && !manifest[j].monorepo
  }

  lemma {:induction false} NoEarlierMonorepository(front: Manifest, org: string)
    ensures Monorepositories(OfOrg(front, org)) == [] <==>
            forall j :: 0 <= j < |front| && front[j].org == org ==> !front[j].monorepo
  {
    var earlier := Monorepositories(OfOrg(front, org));
    forall other ensures other in earlier <==> other in front && other.org == org && other.monorepo {
      OfOrgMembers(front, org, other);
      MonorepositoriesMembers(OfOrg(front, org), other);
    }
    if earlier != [] {
      assert earlier[0] in earlier;
    }
  }

  lemma {:induction false} LastRecordPasses(front: Manifest, r: Record)
    ensures OrgError(front + [r], r.org).None? <==>
            r.monorepo && Monorepositories(OfOrg(front, r.org)) == [] && r.name == r.org + "-monorepo"
  {
    var manifest, own := front + [r], OfOrg(front, r.org);
    assert manifest[..|front|] == front && (own + [r])[..|own|] == own;
    assert OfOrg(manifest, r.org) == own + [r];
    assert Monorepositories(own + [r]) == Monorepositories(own) + (if r.monorepo then [r] else []);
    MonorepositoriesMembers(own + [r], r);
  }

  lemma {:induction false} LastRecordDecides(front: Manifest, r: Record)
    ensures OrgError(front + [r], r.org).None? <==> exists i :: MonorepoLast(front + [r], r.org, i)
  {
    hide OfOrg, Monorepositories, OrgError;
    var manifest := front + [r];
    LastRecordPasses(front, r);
    NoEarlierMonorepository(front, r.org);
    assert manifest[|front|] == r;
    if OrgError(manifest, r.org).None? {
      assert MonorepoLast(manifest, r.org, |front|);
    }
    if i: nat :| MonorepoLast(manifest, r.org, i) {
      assert i == |front|;
      forall j | 0 <= j < |front| && front[j].org == r.org ensures !front[j].monorepo {
        assert manifest[j] == front[j];
      }
    }
  }

  /** The check of one organization passes exactly when it has one monorepository, of the expected name, after
      all its other records. */
  lemma {:induction false} OrgErrorIff(manifest: Manifest, org: string)
    ensures OrgError(manifest, org).None? <==> exists i :: MonorepoLast(manifest, org, i)
  {
    hide OrgError, MonorepoLast;
    if manifest == [] {
      NoMonorepository(org);
    } else {
      var front, r := manifest[..|manifest| - 1], manifest[|manifest| - 1];
      assert manifest == front + [r];
      if r.org != org {
        OrgErrorIff(front, org);
        OtherRecordIgnored(front, r, org);
      } else {
        LastRecordDecides(front, r);
      }
    }
  }

  lemma {:induction false} NoMonorepository(org: string)
    ensures OrgError([], org).Some? && forall i :: !MonorepoLast([], org, i)
  {
  }

  lemma {:induction false} OtherRecordIgnored(front: Manifest, r: Record, org: string)
    requires r.org != org
    ensures OrgError(front + [r], org) == OrgError(front, org)
    ensures forall i :: MonorepoLast(front + [r], org, i) <==> MonorepoLast(front, org, i)
  {
    assert (front + [r])[..|front|] == front;
    assert OfOrg(front + [r], org) == OfOrg(front, org) + [] == OfOrg(front, org);
  }

  /** The checks accept exactly the manifests without repeated names in which each allowed organization has
      one monorepository, of the expected name, after all its other records. */
  lemma {:induction false} TopologyIff(manifest: Manifest)
    ensures Topology(manifest) <==>
            && (forall i, j :: 0 <= i < j < |manifest| ==> manifest[i].fullName != manifest[j].fullName)
            && (exists i :: MonorepoLast(manifest, "hypesiege", i))
            && (exists i :: MonorepoLast(manifest, "streempilot", i))
  {
    hide OrgError, MonorepoLast;
    OrgErrorIff(manifest, "hypesiege");
    OrgErrorIff(manifest, "streempilot");
    assert ALLOWED_ORGS[0] == "hypesiege" && ALLOWED_ORGS[1] == "streempilot";
    if Topology(manifest) {
      forall i, j | 0 <= i < j < |manifest| ensures manifest[i].fullName != manifest[j].fullName {
        assert FullNames(manifest)[i] != FullNames(manifest)[j];
      }
    }
  }

  /** In an accepted manifest each organization's monorepository comes after all its other records. */
  lemma {:induction false} ChildrenComeFirst(manifest: Manifest, i: nat, j: nat)
    requires Topology(manifest) && i < |manifest| && j < |manifest| && i != j
    requires manifest[i].monorepo && manifest[j].org == manifest[i].org && manifest[i].org in ALLOWED_ORGS
    ensures j < i && !manifest[j].monorepo
  {
    hide OrgError;
    var org := manifest[i].org;
    var k :| 0 <= k < |ALLOWED_ORGS| && ALLOWED_ORGS[k] == org;
    OrgErrorIff(manifest, org);
    var last :| MonorepoLast(manifest, org, last);
    assert i == last;
  }

  // -------------------------------------------------------------------- states

  function MainOf(repos: Repositories, name: string): Option<Commit> {
    if name in repos then repos[name].main else None
  }

  /** Nothing is ever taken back: repositories stay, mains once set stay, settings stay. */
  ghost predicate Grows(before: Repositories, after: Repositories) {
    forall name :: name in before ==>
      && name in after
      && after[name].settingsExpected == before[name].settingsExpected
      && (before[name].main.Some? ==> after[name].main == before[name].main)
  }

  /** Only repository `r` may differ, and its main only by becoming the sealed commit. */
  ghost predicate OnlyPublishes(before: Repositories, after: Repositories, r: Record) {
    && Grows(before, after)
    && after.Keys <= before.Keys + {r.fullName}
    && (forall name :: name in before && name != r.fullName ==> after[name] == before[name])
    && (MainOf(after, r.fullName) == MainOf(before, r.fullName) || MainOf(after, r.fullName) == Some(r.commit))
    && (r.fullName !in before && r.fullName in after ==> after[r.fullName].settingsExpected)
  }

  ghost predicate IsChild(manifest: Manifest, r: Record, k: int)
    requires 0 <= k < |manifest|
  {
    manifest[k].org == r.org && !manifest[k].monorepo
  }

  ghost predicate ChildrenPublished(manifest: Manifest, repos: Repositories, r: Record) {
    forall k :: 0 <= k < |manifest| && IsChild(manifest, r, k) ==>
      MainOf(repos, manifest[k].fullName) == Some(manifest[k].commit)
  }

  /** What a fleet without foreign writers keeps: every main is absent or sealed, settings are as
      expected, and a published monorepository has all its children published. */
  ghost predicate Sound(manifest: Manifest, repos: Repositories) {
    forall i :: 0 <= i < |manifest| ==> SoundAt(manifest, repos, manifest[i])
  }

  ghost predicate SoundAt(manifest: Manifest, repos: Repositories, r: Record) {
    && (r.fullName in repos ==> repos[r.fullName].settingsExpected)
    && (MainOf(repos, r.fullName) == None || MainOf(repos, r.fullName) == Some(r.commit))
    && (r.monorepo && MainOf(repos, r.fullName).Some? ==> ChildrenPublished(manifest, repos, r))
  }

  ghost predicate Published(repos: Repositories, r: Record) {
    MainOf(repos, r.fullName) == Some(r.commit)
  }

  // ---------------------------------------------------------------- the remote

  lemma {:induction false} NothingPublishes(repos: Repositories, r: Record)
    ensures OnlyPublishes(repos, repos, r)
  {
  }

  lemma {:induction false} PushPublishes(before: Repositories, prepared: Repositories, r: Record)
    requires OnlyPublishes(before, prepared, r) && r.fullName in prepared && prepared[r.fullName].main == None
    ensures OnlyPublishes(before, prepared[r.fullName := prepared[r.fullName].(main := Some(r.commit))], r)
  {
  }

  datatype Receipt = Receipt(published: string, commit: Commit, created: bool, pushed: bool)

  class GitHub {
    var repos: Repositories
    /** The fate of the coming requests; past its end every request is served. */
    var faults: seq<Fault>

    constructor (repos: Repositories, faults: seq<Fault>)
      ensures this.repos == repos && this.faults == faults
    {
      this.repos, this.faults := repos, faults;
    }

    method NextFault() returns (fault: Fault)
      modifies this`faults
      ensures fault == Fate(old(faults)) && faults == Later(old(faults))
    {
      if faults == [] {
        return Served;
      }
      fault, faults := faults[0], faults[1..];
    }

    method Lookup(name: string) returns (found: Result<Option<Repository>, PublicationError>)
      modifies this`faults
      ensures faults == Later(old(faults))
      ensures found == if Fate(old(faults)) != Served then Err(RequestFailed)
                       else Ok(if name in repos then Some(repos[name]) else None)
    {
      var fault := NextFault();
      if fault != Served {
        return Err(RequestFailed);
      }
      return Ok(if name in repos then Some(repos[name]) else None);
    }

    method MainCommit(name: string) returns (main: Result<Option<Commit>, PublicationError>)
      modifies this`faults
      ensures faults == Later(old(faults))
      ensures main == if Fate(old(faults)) != Served then Err(RequestFailed) else Ok(MainOf(repos, name))
    {
      var fault := NextFault();
      if fault != Served {
        return Err(RequestFailed);
      }
      return Ok(MainOf(repos, name));
    }

    /** Creates an empty repository with the expected settings; an existing name is refused. */
    method Create(name: string) returns (created: Result<Repository, PublicationError>)
      modifies this
      ensures faults == Later(old(faults))
      ensures repos == if Fate(old(faults)) == RequestLost || name in old(repos) then old(repos)
                       else old(repos)[name := Repository(None, true)]
      ensures created == if Fate(old(faults)) == Served && name !in old(repos) then Ok(Repository(None, true))
                         else Err(RequestFailed)
    {
      var fault := NextFault();
      if fault == RequestLost {
        return Err(RequestFailed);
      }
      if name in repos {
        return Err(RequestFailed);
      }
      repos := repos[name := Repository(None, true)];
      if fault == ReplyLost {
        return Err(RequestFailed);
      }
      return Ok(repos[name]);
    }

    /** Pushes `commit` to main without force: a main that is something else stays. */
    method Push(name: string, commit: Commit) returns (pushed: Result<(), PublicationError>)
      modifies this
      ensures faults == Later(old(faults))
      ensures repos == if Fate(old(faults)) == RequestLost || name !in old(repos) || old(repos)[name].main.Some?
                       then old(repos)
                       else old(repos)[name := old(repos)[name].(main := Some(commit))]
      ensures pushed.Ok? <==> Fate(old(faults)) == Served && name in old(repos)
                              && (old(repos)[name].main == None || old(repos)[name].main == Some(commit))
    {
      var fault := NextFault();
      if fault == RequestLost {
        return Err(RequestFailed);
      }
      if name !in repos || repos[name].main !in {None, Some(commit)} {
        return Err(PushRejected);
      }
      if repos[name].main == None {
        repos := repos[name := repos[name].(main := Some(commit))];
      }
      if fault == ReplyLost {
        return Err(RequestFailed);
      }
      return Ok(());
    }

    // --------------------------------------------------------------- publishing

    method VerifyChildren(manifest: Manifest, r: Record) returns (error: Option<PublicationError>)
      modifies this`faults
      ensures error.None? && r.monorepo ==> ChildrenPublished(manifest, repos, r)
      ensures |faults| <= |old(faults)| && (error.Some? && old(faults) != [] ==> |faults| < |old(faults)|)
      ensures old(faults) == [] ==>
                faults == [] && (error.None? <==> (r.monorepo ==> ChildrenPublished(manifest, repos, r)))
    {
      if !r.monorepo {
        return None;
      }
      for k := 0 to |manifest|
        invariant forall j :: 0 <= j < k && IsChild(manifest, r, j) ==>
                    MainOf(repos, manifest[j].fullName) == Some(manifest[j].commit)
        invariant |faults| <= |old(faults)|
      {
        var child := manifest[k];
        if child.org == r.org && !child.monorepo {
          assert IsChild(manifest, r, k);
          var actual := MainCommit(child.fullName);
          match actual {
            case Err(e) => return Some(e);
            case Ok(main) =>
              if main != Some(child.commit) {
                return Some(ChildNotPublished(child.fullName));
              }
          }
        }
      }
      return None;
    }

    method EnsureRepository(r: Record) returns (created: Result<bool, PublicationError>)
      modifies this
      ensures OnlyPublishes(old(repos), repos, r) && MainOf(repos, r.fullName) == MainOf(old(repos), r.fullName)
      ensures created.Ok? ==> r.fullName in repos && repos[r.fullName].settingsExpected
                              && (created.value <==> r.fullName !in old(repos))
      ensures r.fullName in old(repos) ==> repos == old(repos)
      ensures old(faults) != [] ==> |faults| < |old(faults)|
      ensures old(faults) == [] ==>
                && faults == []
                && (created.Ok? <==> (r.fullName in old(repos) ==> old(repos)[r.fullName].settingsExpected))
    {
      var found := Lookup(r.fullName);
      match found {
        case Err(e) => return Err(e);
        case Ok(Some(repository)) =>
          if !repository.settingsExpected {
            return Err(SettingsMismatch);
          }
          return Ok(false);
        case Ok(None) =>
          var answer := Create(r.fullName);
          match answer {
            case Err(e) => return Err(e);
            case Ok(_) => return Ok(true);
          }
      }
    }

    /** Publishes one record. Whatever the faults, nothing but this record's repository changes, its main
        at most from absent to the sealed commit, and a monorepository is not even created before all its
        children are published. Success means published. Every call meets some of the faults, so they run out
        under repetition, and without faults it succeeds exactly when children, settings and main allow it. */
    method PublishRecord(manifest: Manifest, r: Record) returns (outcome: Result<Receipt, PublicationError>)
      modifies this
      ensures OnlyPublishes(old(repos), repos, r)
      ensures r.monorepo && repos != old(repos) ==> ChildrenPublished(manifest, old(repos), r)
      ensures outcome.Ok? ==>
                && Published(repos, r) && repos[r.fullName].settingsExpected
                && outcome.value == Receipt(r.fullName, r.commit, r.fullName !in old(repos),
                                            MainOf(old(repos), r.fullName).None?)
      ensures old(faults) != [] ==> |faults| < |old(faults)|
      ensures old(faults) == [] ==>
                && faults == []
                && (outcome.Ok? <==>
                    && (r.monorepo ==> ChildrenPublished(manifest, old(repos), r))
                    && (r.fullName in old(repos) ==> old(repos)[r.fullName].settingsExpected)
                    && (MainOf(old(repos), r.fullName) == None || MainOf(old(repos), r.fullName) == Some(r.commit)))
    {
      hide ChildrenPublished, OnlyPublishes;
      var refusal := VerifyChildren(manifest, r);
      NothingPublishes(repos, r);
      if refusal.Some? {
        return Err(refusal.value);
      }
      var ensured := EnsureRepository(r);
      var created;
      match ensured {
        case Err(e) => return Err(e);
        case Ok(c) => created := c;
      }
      ghost var prepared := repos;
      var existing := MainCommit(r.fullName);
      var pushed;
      match existing {
        case Err(e) => return Err(e);
        case Ok(main) =>
          if main.Some? && main.value != r.commit {
            return Err(DivergentMain);
          }
          pushed := main.None?;
      }
      if pushed {
        var answer := Push(r.fullName, r.commit);
        PushPublishes(old(repos), prepared, r);
        match answer {
          case Err(e) => return Err(e);
          case Ok(_) =>
        }
      }
      var configured := Lookup(r.fullName);
      match configured {
        case Err(e) => return Err(e);
        case Ok(None) => return Err(RepositoryMissing);
        case Ok(Some(repository)) =>
          if !repository.settingsExpected {
            return Err(SettingsMismatch);
          }
      }
      var actual := MainCommit(r.fullName);
      match actual {
        case Err(e) => return Err(e);
        case Ok(main) =>
          if main != Some(r.commit) {
            return Err(VerificationFailed);
          }
      }
      return Ok(Receipt(r.fullName, r.commit, created, pushed));
    }
  }

  // ---------------------------------------------------------------- whole runs

  lemma {:induction false} GrowthKeepsChildren(manifest: Manifest, before: Repositories, after: Repositories, r: Record)
    requires Grows(before, after) && ChildrenPublished(manifest, before, r)
    ensures ChildrenPublished(manifest, after, r)
  {
  }

  lemma {:induction false} NamesIdentify(manifest: Manifest, r: Record, s: Record)
    requires Distinct(FullNames(manifest)) && r in manifest && s in manifest && r.fullName == s.fullName
    ensures r == s
  {
    var i :| 0 <= i < |manifest| && manifest[i] == r;
    var j :| 0 <= j < |manifest| && manifest[j] == s;
    assert FullNames(manifest)[i] == FullNames(manifest)[j];
  }

  /** One call keeps the fleet sound, however it ends. */
  lemma {:induction false} PublishingKeepsSound(manifest: Manifest, before: Repositories, after: Repositories,
                                                r: Record)
    requires Distinct(FullNames(manifest)) && r in manifest
    requires Sound(manifest, before) && OnlyPublishes(before, after, r)
    requires r.monorepo && before != after ==> ChildrenPublished(manifest, before, r)
    ensures Sound(manifest, after)
  {
    hide ChildrenPublished;
    forall i | 0 <= i < |manifest| ensures SoundAt(manifest, after, manifest[i]) {
      var s := manifest[i];
      assert SoundAt(manifest, before, s);
      if s.fullName == r.fullName {
        NamesIdentify(manifest, r, s);
      }
      if s.monorepo && MainOf(after, s.fullName).Some? {
        if MainOf(before, s.fullName).Some? || s == r {
          GrowthKeepsChildren(manifest, before, after, s);
        }
      }
    }
  }

  /** Any calls, in any order, over any faults: the fleet stays sound, from the empty remote on. */
  method PublishInAnyOrder(manifest: Manifest, order: seq<Record>, github: GitHub)
    requires Topology(manifest) && Sound(manifest, github.repos)
    requires forall k :: 0 <= k < |order| ==> order[k] in manifest
    modifies github
    ensures Sound(manifest, github.repos) && Grows(old(github.repos), github.repos)
  {
    hide Sound, OrgError;
    for k := 0 to |order|
      invariant Sound(manifest, github.repos) && Grows(old(github.repos), github.repos)
    {
      ghost var before := github.repos;
      var outcome := github.PublishRecord(manifest, order[k]);
      PublishingKeepsSound(manifest, before, github.repos, order[k]);
    }
  }

  lemma {:induction false} EmptyRemoteIsSound(manifest: Manifest)
    ensures Sound(manifest, map[])
  {
  }

  /** From the empty remote: whatever calls are made, in any order and over any faults, every main is absent
      or sealed and no monorepository is published before all its children. */
  method PublishFromEmpty(manifest: Manifest, order: seq<Record>, faults: seq<Fault>) returns (github: GitHub)
    requires Topology(manifest)
    requires forall k :: 0 <= k < |order| ==> order[k] in manifest
    ensures fresh(github) && Sound(manifest, github.repos)
  {
    github := new GitHub(map[], faults);
    EmptyRemoteIsSound(manifest);
    PublishInAnyOrder(manifest, order, github);
  }

  ghost predicate AllPublished(manifest: Manifest, repos: Repositories, n: int)
    requires 0 <= n <= |manifest|
  {
    forall k :: 0 <= k < n ==> Published(repos, manifest[k])
  }

  lemma {:induction false} ReadyInManifestOrder(manifest: Manifest, repos: Repositories, n: nat)
    requires Topology(manifest) && n < |manifest| && manifest[n].org in ALLOWED_ORGS
    requires AllPublished(manifest, repos, n)
    ensures manifest[n].monorepo ==> ChildrenPublished(manifest, repos, manifest[n])
  {
    hide OrgError;
    if manifest[n].monorepo {
      forall k | 0 <= k < |manifest| && IsChild(manifest, manifest[n], k)
        ensures MainOf(repos, manifest[k].fullName) == Some(manifest[k].commit)
      {
        ChildrenComeFirst(manifest, n, k);
        assert Published(repos, manifest[k]);
      }
    }
  }

  /** Without faults, publishing in manifest order publishes the whole fleet, from any sound remote; on
      a fleet that is published already it creates and pushes nothing. */
  method PublishFleet(manifest: Manifest, github: GitHub) returns (receipts: seq<Receipt>)
    requires Topology(manifest) && forall k :: 0 <= k < |manifest| ==> manifest[k].org in ALLOWED_ORGS
    requires Sound(manifest, github.repos) && github.faults == []
    modifies github
    ensures |receipts| == |manifest| && AllPublished(manifest, github.repos, |manifest|)
    ensures Sound(manifest, github.repos)
    ensures AllPublished(manifest, old(github.repos), |manifest|) ==>
              && github.repos == old(github.repos)
              && forall k :: 0 <= k < |receipts| ==> !receipts[k].created && !receipts[k].pushed
  {
    hide Sound, OrgError, ChildrenPublished;
    receipts := [];
    for k := 0 to |manifest|
      invariant Sound(manifest, github.repos) && github.faults == [] && |receipts| == k
      invariant AllPublished(manifest, github.repos, k)
      invariant AllPublished(manifest, old(github.repos), |manifest|) ==>
                  && github.repos == old(github.repos)
                  && forall j :: 0 <= j < k ==> !receipts[j].created && !receipts[j].pushed
    {
      var r := manifest[k];
      ghost var before := github.repos;
      ReadyInManifestOrder(manifest, before, k);
      assert SoundAt(manifest, before, r) by { SoundIsSoundAt(manifest, before, k); }
      var outcome := github.PublishRecord(manifest, r);
      PublishingKeepsSound(manifest, before, github.repos, r);
      match outcome {
        case Ok(receipt) => receipts := receipts + [receipt];
        case Err(_) => assert false;
      }
      assert Published(before, r) ==> github.repos == before;
    }
  }

  lemma {:induction false} SoundIsSoundAt(manifest: Manifest, repos: Repositories, k: nat)
    requires Sound(manifest, repos) && k < |manifest|
    ensures SoundAt(manifest, repos, manifest[k])
  {
  }
}
