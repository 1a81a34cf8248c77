/** Processor configuration and the two eligibility paths of the registry. */
module Registry {
  import opened Wrappers

  datatype Source = Source(account: string, mailboxes: Option<seq<string>>)

  /** `kind` is what makes a processor available: a built-in name or a `command` setting. */
  datatype Config = Config(
    name: string,
    enabled: bool,
    events: seq<string>,
    sources: Option<seq<Source>>,
    hasCommand: bool)

  datatype Event = Event(eventType: string, account: string, mailbox: string)

  predicate SourceMatches(source: Source, account: string, mailbox: string) {
    source.account == account && (source.mailboxes.Some? ==> mailbox in source.mailboxes.value)
  }

  /** No source list accepts everything; an empty one accepts nothing. */
  predicate MatchesSource(sources: Option<seq<Source>>, account: string, mailbox: string) {
    sources.Some? ==> exists i :: 0 <= i < |sources.value| && SourceMatches(sources.value[i], account, mailbox)
  }

  predicate MatchesEvent(c: Config, e: Event) {
    c.enabled && e.eventType in c.events && MatchesSource(c.sources, e.account, e.mailbox)
  }

  predicate Available(c: Config) {
    c.name == "logger" || c.name == "command" || c.hasCommand
  }

  function FromConfig(configs: seq<Config>): (registered: seq<Config>) {
    if |configs| == 0 then []
    else (if configs[0].enabled && Available(configs[0]) then [configs[0]] else []) + FromConfig(configs[1..])
  }

  /** The path of the dispatcher: every match, in registration order. */
  function ProcessorsForEvent(registered: seq<Config>, e: Event): seq<string> {
    if |registered| == 0 then []
    else (if MatchesEvent(registered[0], e) then [registered[0].name] else []) + ProcessorsForEvent(registered[1..], e)
  }

  datatype Refusal = Unavailable | NotSubscribed | SourceExcluded

  /** The path before a claim: the first processor of that name must match. */
  function RequireProcessor(registered: seq<Config>, name: string, e: Event): Option<Refusal> {
    if |registered| == 0 then Some(Unavailable)
    else if registered[0].name != name then RequireProcessor(registered[1..], name, e)
    else if e.eventType !in registered[0].events then Some(NotSubscribed)
    else if !MatchesSource(registered[0].sources, e.account, e.mailbox) then Some(SourceExcluded)
    else None
  }

  /** Configuration validation refuses duplicate names. */
  predicate UniqueNames(configs: seq<Config>) {
    forall i, j :: 0 <= i < j < |configs| ==> configs[i].name != configs[j].name
  }

  lemma {:induction false} RegisteredComesFromConfig(configs: seq<Config>, c: Config)
    ensures c in FromConfig(configs) <==> c in configs && c.enabled && Available(c)
  {
    if |configs| > 0 {
      RegisteredComesFromConfig(configs[1..], c);
      assert configs == [configs[0]] + configs[1..];
    }
  }

  lemma {:induction false} RegistryKeepsUniqueNames(configs: seq<Config>)
    requires UniqueNames(configs)
    ensures UniqueNames(FromConfig(configs))
  {
    if |configs| > 0 {
      var rest := FromConfig(configs[1..]);
      RegistryKeepsUniqueNames(configs[1..]);
      forall k | 0 <= k < |rest| ensures rest[k].name != configs[0].name {
        assert rest[k] in rest;
        RegisteredComesFromConfig(configs[1..], rest[k]);
        var i :| 0 <= i < |configs| - 1 && configs[1..][i] == rest[k];
        assert configs[i + 1] == rest[k];
      }
    }
  }

  lemma {:induction false} UnregisteredIsRefused(registered: seq<Config>, name: string, e: Event)
    requires forall i :: 0 <= i < |registered| ==> registered[i].name != name
    ensures RequireProcessor(registered, name, e) == Some(Unavailable)
    ensures name !in ProcessorsForEvent(registered, e)
  {
    if |registered| > 0 {
      UnregisteredIsRefused(registered[1..], name, e);
    }
  }

  lemma {:induction false} PathsAgreeOnRegistered(registered: seq<Config>, name: string, e: Event)
    requires UniqueNames(registered) && forall i :: 0 <= i < |registered| ==> registered[i].enabled
    ensures name in ProcessorsForEvent(registered, e) <==> RequireProcessor(registered, name, e).None?
  {
    if |registered| > 0 {
      var rest := registered[1..];
      if registered[0].name == name {
        UnregisteredIsRefused(rest, name, e);
      } else {
        PathsAgreeOnRegistered(rest, name, e);
      }
    }
  }

  /**
   For every validated configuration the two paths accept the same processors,
   so a job registered for an event is never abandoned as ineligible while the
   configuration stays the same.
   */
  lemma EligibilityPathsAgree(configs: seq<Config>, name: string, e: Event)
    requires UniqueNames(configs)
    ensures name in ProcessorsForEvent(FromConfig(configs), e) <==>
            RequireProcessor(FromConfig(configs), name, e).None?
  {
    var registered := FromConfig(configs);
    RegistryKeepsUniqueNames(configs);
    forall i | 0 <= i < |registered| ensures registered[i].enabled {
      RegisteredComesFromConfig(configs, registered[i]);
      assert registered[i] in registered;
    }
    PathsAgreeOnRegistered(registered, name, e);
  }

  /** Some registered entry of that name matches the event. */
  predicate SomeMatches(registered: seq<Config>, name: string, e: Event) {
    exists i :: 0 <= i < |registered| && registered[i].name == name && MatchesEvent(registered[i], e)
  }

  /** The first registered entry of that name matches the event. */
  predicate FirstMatches(registered: seq<Config>, name: string, e: Event) {
    exists i :: 0 <= i < |registered| && registered[i].name == name && MatchesEvent(registered[i], e)
                && forall j :: 0 <= j < i ==> registered[j].name != name
  }

  lemma {:induction false} ListedIffSomeMatches(registered: seq<Config>, name: string, e: Event)
    ensures name in ProcessorsForEvent(registered, e) <==> SomeMatches(registered, name, e)
  {
    if |registered| > 0 {
      ListedIffSomeMatches(registered[1..], name, e);
      if SomeMatches(registered[1..], name, e) {
        var i :| 0 <= i < |registered| - 1 && registered[1..][i].name == name && MatchesEvent(registered[1..][i], e);
        assert registered[i + 1] == registered[1..][i];
      }
      if SomeMatches(registered, name, e) && !(registered[0].name == name && MatchesEvent(registered[0], e)) {
        var i :| 0 <= i < |registered| && registered[i].name == name && MatchesEvent(registered[i], e);
        assert registered[1..][i - 1] == registered[i];
      }
    }
  }

  lemma {:induction false} RequiredIffFirstMatches(registered: seq<Config>, name: string, e: Event)
    requires forall i :: 0 <= i < |registered| ==> registered[i].enabled
    ensures RequireProcessor(registered, name, e).None? <==> FirstMatches(registered, name, e)
  {
    if |registered| > 0 && registered[0].name != name {
      var rest := registered[1..];
      RequiredIffFirstMatches(rest, name, e);
      if FirstMatches(rest, name, e) {
        var i :| 0 <= i < |rest| && rest[i].name == name && MatchesEvent(rest[i], e)
            && forall j :: 0 <= j < i ==> rest[j].name != name;
        assert registered[i + 1] == rest[i];
        assert forall j :: 0 < j < i + 1 ==> registered[j] == rest[j - 1];
      }
      if FirstMatches(registered, name, e) {
        var i :| 0 <= i < |registered| && registered[i].name == name && MatchesEvent(registered[i], e)
                 && forall j :: 0 <= j < i ==> registered[j].name != name;
        assert rest[i - 1] == registered[i];
        assert forall j :: 0 <= j < i - 1 ==> rest[j] == registered[j + 1];
      }
    }
  }

  /**
   For any configuration, validated or not, the two paths agree on a name exactly
   when its first registered entry matches the event or no entry of that name does.
   */
  lemma PathsAgreeIff(configs: seq<Config>, name: string, e: Event)
    ensures var registered := FromConfig(configs);
            (name in ProcessorsForEvent(registered, e) <==> RequireProcessor(registered, name, e).None?)
            <==> (FirstMatches(registered, name, e) || !SomeMatches(registered, name, e))
  {
    var registered := FromConfig(configs);
    forall i | 0 <= i < |registered| ensures registered[i].enabled {
      RegisteredComesFromConfig(configs, registered[i]);
      assert registered[i] in registered;
    }
    ListedIffSomeMatches(registered, name, e);
    RequiredIffFirstMatches(registered, name, e);
  }

  /**
   A job is registered under a name exactly when some configured entry of that name
   is enabled and available, subscribes to the event's type, and lists no sources
   or one with the event's account and no mailboxes or the event's mailbox.
   */
  lemma ListedMeans(configs: seq<Config>, name: string, e: Event)
    ensures name in ProcessorsForEvent(FromConfig(configs), e) <==>
            exists c | c in configs ::
              && c.name == name && c.enabled && (name == "logger" || name == "command" || c.hasCommand)
              && e.eventType in c.events
              && (c.sources.None? || exists source | source in c.sources.value ::
                    source.account == e.account && (source.mailboxes.None? || e.mailbox in source.mailboxes.value))
  {
    var registered := FromConfig(configs);
    ListedIffSomeMatches(registered, name, e);
    if SomeMatches(registered, name, e) {
      var i :| 0 <= i < |registered| && registered[i].name == name && MatchesEvent(registered[i], e);
      assert registered[i] in registered;
      RegisteredComesFromConfig(configs, registered[i]);
    }
    forall c | c in configs && c.name == name && c.enabled && Available(c) && MatchesEvent(c, e)
      ensures SomeMatches(registered, name, e)
    {
      RegisteredComesFromConfig(configs, c);
    }
  }

  /** Why the named path refuses: no such processor, not subscribed, or the source is excluded. */
  lemma {:induction false} RefusalMeans(registered: seq<Config>, c: Config, name: string, e: Event)
    requires UniqueNames(registered)
    ensures (forall d :: d in registered ==> d.name != name) ==>
              RequireProcessor(registered, name, e) == Some(Unavailable)
    ensures c in registered && c.name == name ==>
              RequireProcessor(registered, name, e) ==
              if e.eventType !in c.events then Some(NotSubscribed)
              else if c.sources.None? || exists source | source in c.sources.value ::
                        source.account == e.account && (source.mailboxes.None? || e.mailbox in source.mailboxes.value)
              then None else Some(SourceExcluded)
  {
    if |registered| > 0 {
      assert registered == [registered[0]] + registered[1..];
      RefusalMeans(registered[1..], c, name, e);
    }
  }

  /** With a repeated name they can disagree: the first entry of a name decides alone. */
  lemma DuplicateNamesDisagree()
    ensures var configs :=
            [Config("logger", true, [], None, false), Config("logger", true, ["email_arrived"], None, false)];
            var e := Event("email_arrived", "a", "INBOX");
            "logger" in ProcessorsForEvent(FromConfig(configs), e)
            && RequireProcessor(FromConfig(configs), "logger", e) == Some(NotSubscribed)
  {
    var first := Config("logger", true, [], None, false);
    var second := Config("logger", true, ["email_arrived"], None, false);
    var e := Event("email_arrived", "a", "INBOX");
    assert [first, second][1..] == [second] && [second][1..] == [];
    assert FromConfig([second]) == [second];
    assert FromConfig([first, second]) == [first, second];
    assert ProcessorsForEvent([second], e) == ["logger"];
    assert ProcessorsForEvent([first, second], e) == ["logger"];
  }
}
