/** Container resolution and the guarded restart (src/docker_client.py, `DockerClient`). */
module Docker {
  import opened Common
  import opened Settings

  datatype ContainerEntry = ContainerEntry(id: string, names: seq<string>, service: Option<string>)

  datatype ContainerRef = ContainerRef(id: string, name: string, composeService: Option<string>)
  {
    predicate Matches(configured: string) {
      name == configured || composeService == Some(configured)
    }
  }

  /** The proxy's answer to the restart request. */
  datatype Reply = Status(code: int) | TimedOut | RequestFailed

  datatype RestartResult = RestartResult(ok: bool, posted: Option<string>)

  function WithoutSlashes(name: string): string {
    if name != "" && name[0] == '/' then WithoutSlashes(name[1..]) else name
  }

  /** `bare` is `name` without its leading slashes. */
  ghost predicate IsStripped(name: string, bare: string) {
    && |bare| <= |name| && name[|name| - |bare|..] == bare
    && (forall i | 0 <= i < |name| - |bare| :: name[i] == '/')
    && (bare != "" ==> bare[0] != '/')
  }

  lemma {:induction false} StrippingIsExact(name: string, bare: string)
    ensures IsStripped(name, bare) <==> bare == WithoutSlashes(name)
  {
    if name != "" && name[0] == '/' {
      StrippingIsExact(name[1..], bare);
      if IsStripped(name, bare) {
        assert |bare| < |name|;
        assert name[1..][|name| - 1 - |bare|..] == bare;
        assert forall i | 0 <= i < |name| - 1 - |bare| :: name[1..][i] == name[i + 1];
      }
      if IsStripped(name[1..], bare) {
        assert name[|name| - |bare|..] == bare;
        assert forall i | 1 <= i < |name| - |bare| :: name[i] == name[1..][i - 1];
      }
    } else if IsStripped(name, bare) {
      assert |bare| == |name|;
      assert name[0..] == name;
    } else {
      assert name[0..] == name;
    }
  }

  /** One of the entry's names is `configured`, slashes aside. */
  ghost predicate Named(e: ContainerEntry, configured: string) {
    exists i :: 0 <= i < |e.names| && IsStripped(e.names[i], configured)
  }

  /** The entry's primary name is `configured`, slashes aside; an entry without names has the empty one. */
  ghost predicate PrimarilyNamed(e: ContainerEntry, configured: string) {
    if e.names == [] then configured == "" else IsStripped(e.names[0], configured)
  }

  lemma NamesAreStripped(e: ContainerEntry, configured: string)
    ensures configured in Names(e) <==> Named(e, configured)
    ensures Ref(e).name == configured <==> PrimarilyNamed(e, configured)
  {
    forall i | 0 <= i < |e.names|
      ensures IsStripped(e.names[i], configured) <==> configured == Names(e)[i]
    {
      StrippingIsExact(e.names[i], configured);
    }
  }

  function Names(e: ContainerEntry): seq<string> {
    seq(|e.names|, i requires 0 <= i < |e.names| => WithoutSlashes(e.names[i]))
  }

  function Ref(e: ContainerEntry): ContainerRef {
    ContainerRef(e.id, if e.names == [] then "" else WithoutSlashes(e.names[0]), e.service)
  }

  function Resolve(es: seq<ContainerEntry>, configured: string, byLabel: Option<ContainerRef>): Option<ContainerRef> {
    if es == [] then byLabel
    else if configured in Names(es[0]) then Some(Ref(es[0]))
    else Resolve(es[1..], configured,
                 if es[0].service == Some(configured) && byLabel.None? then Some(Ref(es[0])) else byLabel)
  }

  /** `None` stands for a listing that could not be fetched or parsed. */
  method ResolveContainer(listing: Option<seq<ContainerEntry>>, configured: string) returns (r: Option<ContainerRef>)
    ensures r == if listing.None? then None else Resolve(listing.value, configured, None)
  {
    if listing.None? {
      return None;
    }
    var es := listing.value;
    var byLabel: Option<ContainerRef> := None;
    for i := 0 to |es|
      invariant Resolve(es, configured, None) == Resolve(es[i..], configured, byLabel)
    {
      assert es[i..][0] == es[i] && es[i..][1..] == es[i + 1..];
      if configured in Names(es[i]) {
        return Some(Ref(es[i]));
      }
      if es[i].service == Some(configured) && byLabel.None? {
        byLabel := Some(Ref(es[i]));
      }
    }
    return byLabel;
  }

  ghost predicate FirstNamed(es: seq<ContainerEntry>, configured: string, i: nat) {
    i < |es| && Named(es[i], configured) && forall j | 0 <= j < i :: !Named(es[j], configured)
  }

  ghost predicate FirstLabelled(es: seq<ContainerEntry>, configured: string, i: nat) {
    i < |es| && es[i].service == Some(configured) && forall j | 0 <= j < i :: es[j].service != Some(configured)
  }

  /** None of the entries has the name; none has it, nor the label. */
  ghost predicate NoneNamed(es: seq<ContainerEntry>, configured: string) {
    forall i | 0 <= i < |es| :: !Named(es[i], configured)
  }

  ghost predicate NoneLabelled(es: seq<ContainerEntry>, configured: string) {
    forall i | 0 <= i < |es| :: es[i].service != Some(configured)
  }

  lemma {:induction false} ResolveFrom(es: seq<ContainerEntry>, configured: string, byLabel: Option<ContainerRef>)
    ensures var r := Resolve(es, configured, byLabel);
            || (exists i: nat :: FirstNamed(es, configured, i) && r == Some(Ref(es[i])))
            || (NoneNamed(es, configured) && byLabel.Some? && r == byLabel)
            || (NoneNamed(es, configured) && byLabel.None?
                && exists i: nat :: FirstLabelled(es, configured, i) && r == Some(Ref(es[i])))
            || (NoneNamed(es, configured) && NoneLabelled(es, configured) && byLabel.None? && r == None)
  {
    if es != [] {
      NamesAreStripped(es[0], configured);
      if Named(es[0], configured) {
        assert FirstNamed(es, configured, 0);
      } else {
        var rest := es[1..];
        var next := if es[0].service == Some(configured) && byLabel.None? then Some(Ref(es[0])) else byLabel;
        ResolveFrom(rest, configured, next);
        ResolveStep(es, configured, byLabel, next);
      }
    }
  }

  lemma ResolveStep(es: seq<ContainerEntry>, configured: string, byLabel: Option<ContainerRef>, next: Option<ContainerRef>)
    requires es != [] && !Named(es[0], configured)
    ensures NoneNamed(es[1..], configured) <==> NoneNamed(es, configured)
    ensures NoneLabelled(es, configured) <==> NoneLabelled(es[1..], configured) && es[0].service != Some(configured)
    ensures forall i: nat | FirstNamed(es[1..], configured, i) :: FirstNamed(es, configured, i + 1) && es[1..][i] == es[i + 1]
    ensures es[0].service == Some(configured) ==> FirstLabelled(es, configured, 0)
    ensures es[0].service != Some(configured) ==>
              forall i: nat | FirstLabelled(es[1..], configured, i) :: FirstLabelled(es, configured, i + 1) && es[1..][i] == es[i + 1]
  {
    var rest := es[1..];
    assert forall i | 0 <= i < |rest| :: rest[i] == es[i + 1];
    assert forall i | 1 <= i < |es| :: es[i] == rest[i - 1];
  }

  /** The entry a name resolves to: the first with the exact name, else the first with the label. */
  ghost predicate IsResolution(es: seq<ContainerEntry>, configured: string, i: nat) {
    FirstNamed(es, configured, i) || (NoneNamed(es, configured) && FirstLabelled(es, configured, i))
  }

  lemma ResolutionIsExact(es: seq<ContainerEntry>, configured: string)
    ensures var r := Resolve(es, configured, None);
            && (forall i: nat | IsResolution(es, configured, i) :: r == Some(Ref(es[i])))
            && (r.Some? ==> exists i: nat :: IsResolution(es, configured, i))
            && (r.None? <==> NoneNamed(es, configured) && NoneLabelled(es, configured))
  {
    ResolveFrom(es, configured, None);
    var r := Resolve(es, configured, None);
    forall i: nat, j: nat | IsResolution(es, configured, i) && IsResolution(es, configured, j)
      ensures i == j
    {
    }
    if i: nat :| FirstNamed(es, configured, i) && r == Some(Ref(es[i])) {
      assert IsResolution(es, configured, i);
    } else if i: nat :| NoneNamed(es, configured) && FirstLabelled(es, configured, i) && r == Some(Ref(es[i])) {
      assert IsResolution(es, configured, i);
    }
  }

  function RestartContainer(cfg: Config, configured: string, listing: Option<seq<ContainerEntry>>, reply: Reply): RestartResult {
    if configured != cfg.teslamateContainer then RestartResult(false, None)
    else if listing.None? then RestartResult(false, None)
    else
      var found := Resolve(listing.value, configured, None);
      if found.None? then RestartResult(false, None)
      else if !found.value.Matches(cfg.teslamateContainer) then RestartResult(false, None)
      else if found.value.name == cfg.databaseContainer || found.value.composeService == Some(cfg.databaseContainer)
      then RestartResult(false, None)
      else RestartResult(reply == Status(204) || reply == Status(304), Some(found.value.id))
  }

  /** TeslaMate's by primary name or label, and not the database's by either. */
  ghost predicate MayRestart(cfg: Config, e: ContainerEntry) {
    && (PrimarilyNamed(e, cfg.teslamateContainer) || e.service == Some(cfg.teslamateContainer))
    && !PrimarilyNamed(e, cfg.databaseContainer)
    && e.service != Some(cfg.databaseContainer)
  }

  /**
   A restart is posted exactly when the name asked for is TeslaMate's and resolves to a container
   that may be restarted; it is posted once, to that container, and succeeds only on 204 or 304.
   */
  lemma RestartTargetIsTeslamate(cfg: Config, configured: string, listing: Option<seq<ContainerEntry>>, reply: Reply)
    ensures var r := RestartContainer(cfg, configured, listing, reply);
            && (r.posted.Some? <==>
                && configured == cfg.teslamateContainer
                && listing.Some?
                && exists i: nat :: IsResolution(listing.value, configured, i) && MayRestart(cfg, listing.value[i]))
            && (r.posted.Some? ==>
                  forall i: nat | IsResolution(listing.value, configured, i) :: r.posted == Some(listing.value[i].id))
            && (r.ok <==> r.posted.Some? && reply in {Status(204), Status(304)})
  {
    if listing.Some? {
      ResolutionIsExact(listing.value, configured);
      forall i: nat | IsResolution(listing.value, configured, i)
        ensures Ref(listing.value[i]).name == cfg.teslamateContainer <==> PrimarilyNamed(listing.value[i], cfg.teslamateContainer)
        ensures Ref(listing.value[i]).name == cfg.databaseContainer <==> PrimarilyNamed(listing.value[i], cfg.databaseContainer)
      {
        NamesAreStripped(listing.value[i], cfg.teslamateContainer);
        NamesAreStripped(listing.value[i], cfg.databaseContainer);
      }
    }
  }
}
