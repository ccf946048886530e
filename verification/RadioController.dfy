/**
 The on-demand owner of the radio connection (spe/radio_controller.py). A body runs with the
 controller's lock held, so each method here is one uninterrupted turn; who gets the lock
 when is the subject of RadioLock.
 */
module RadioController {
  import opened Sequences
  import opened Text
  import opened RadioSettings

  datatype Report = RADIO_CONNECTING | RADIO_CONNECTED | RADIO_DISCONNECTED | RADIO_ERROR

  /** A backend, as built: what it will talk to. */
  datatype Link =
    | FlexLink(host: string, port: int)
    | TciLink(host: string, port: int, mode: string, drive: int)

  /** A link that serves this configuration. An empty Flex host means the radio was found by
      discovery. */
  predicate Serves(link: Link, c: Config) {
    match link
    case FlexLink(host, port) =>
      c.kind == "flex" && host != "" && (c.flex.host != "" ==> host == c.flex.host) && port == c.flex.port
    case TciLink(host, port, mode, drive) =>
      c.kind == "tci" && host != "" && host == c.tci.host && port == c.tci.port
      && mode == c.tci.mode && drive == c.tci.drive
  }

  /** What a listener that latches the last connect or disconnect report believes. */
  function Believed(log: seq<Report>): bool {
    if log == [] then false
    else match log[|log| - 1]
      case RADIO_CONNECTED => true
      case RADIO_DISCONNECTED => false
      case _ => Believed(log[..|log| - 1])
  }

  lemma BelievedAfter(log: seq<Report>, r: Report)
    ensures Believed(log + [r]) == (if r.RADIO_CONNECTED? then true
                                    else if r.RADIO_DISCONNECTED? then false
                                    else Believed(log))
  {
    FrontOfSnoc(log, r);
  }

  class RadioController {
    var config: Config
    var link: Option<Link>
    /** Whether the link still stands; the far end may drop it at any time. */
    var alive: bool
    var resolvedHost: string
    ghost var log: seq<Report>

    ghost predicate Valid()
      reads this
    {
      && (config.flex.host != "" ==> resolvedHost == config.flex.host)
      && (link.Some? ==> Serves(link.value, config))
      && (link.Some? <==> Believed(log))
    }

    constructor (config: Config)
      ensures Valid() && this.config == config && link == None && log == []
    {
      this.config, link, alive, resolvedHost, log := config, None, false, config.flex.host, [];
    }

    ghost method Report(r: Report)
      modifies `log
      ensures log == old(log) + [r]
      ensures Believed(log) == (if r.RADIO_CONNECTED? then true
                                else if r.RADIO_DISCONNECTED? then false
                                else Believed(old(log)))
    {
      BelievedAfter(log, r);
      log := log + [r];
    }

    /** The far end goes away, or does not. */
    method Drop()
      requires Valid()
      modifies `alive
      ensures Valid() && (alive ==> old(alive))
    {
      var gone: bool := *;
      alive := alive && !gone;
    }

    /** Builds the backend for the configured kind, looking for a Flex on the network when it
        has no address yet. Whatever goes wrong has been reported. */
    method Build() returns (built: Option<Link>)
      requires Valid()
      modifies `resolvedHost, `log
      ensures Valid()
      ensures built.Some? ==> Serves(built.value, config) && log == old(log)
      ensures built.None? ==> log == old(log) + [RADIO_ERROR] && resolvedHost == old(resolvedHost)
      ensures old(resolvedHost) != "" ==> resolvedHost == old(resolvedHost)
      ensures built.Some? && built.value.FlexLink? ==> resolvedHost == built.value.host
      ensures config.kind == "tci" ==> (built.Some? <==> config.tci.host != "")
      ensures config.kind == "flex" && old(resolvedHost) != "" ==> built.Some?
      ensures config.kind != "tci" && config.kind != "flex" ==> built.None?
    {
      if config.kind == "flex" {
        if resolvedHost == "" {
          var found: Option<string> := *;
          if !found.Some? || found.value == "" {
            Report(RADIO_ERROR);
            return None;
          }
          resolvedHost := found.value;
        }
        return Some(FlexLink(resolvedHost, config.flex.port));
      }
      if config.kind == "tci" {
        if config.tci.host == "" {
          Report(RADIO_ERROR);
          return None;
        }
        return Some(TciLink(config.tci.host, config.tci.port, config.tci.mode, config.tci.drive));
      }
      Report(RADIO_ERROR);
      return None;
    }

    /** A live link for the current configuration, or nothing and an error reported. A link
        that already stands is kept and nothing is reported. */
    method Connect() returns (got: Option<Link>)
      requires Valid()
      modifies this
      ensures Valid() && config == old(config)
      ensures got.Some? ==> link == got && alive && Serves(got.value, config)
      ensures got.None? ==> link == old(link) && alive == old(alive) && |log| > |old(log)| &&
                            log[|log| - 1] == RADIO_ERROR
      ensures old(link.Some? && alive) ==> got == old(link) && log == old(log) && resolvedHost == old(resolvedHost)
      ensures !old(link.Some? && alive) ==>
                log == old(log) + if got.Some? then [RADIO_CONNECTING, RADIO_CONNECTED]
                                  else if config.kind == "none" then [RADIO_ERROR]
                                  else [RADIO_CONNECTING, RADIO_ERROR]
      ensures config.kind == "none" && old(link).None? ==> got.None?
    {
      hide Serves, Believed;
      if link.Some? && alive {
        return link;
      }
      if config.kind == "none" {
        Report(RADIO_ERROR);
        return None;
      }
      Report(RADIO_CONNECTING);
      var built := Build();
      if built.None? {
        return None;
      }
      var reached: bool := *;
      if !reached {
        Report(RADIO_ERROR);
        return None;
      }
      link, alive := built, true;
      Report(RADIO_CONNECTED);
      return built;
    }

    /** The close, with the lock held: errors of the far end's close are swallowed. */
    method CloseLocked()
      requires Valid()
      modifies this
      ensures Valid() && link == None && config == old(config) && resolvedHost == old(resolvedHost)
      ensures log == old(log) + if old(link).Some? then [RADIO_DISCONNECTED] else []
    {
      if link.None? {
        return;
      }
      link, alive := None, false;
      Report(RADIO_DISCONNECTED);
    }

    method Disconnect()
      requires Valid()
      modifies this
      ensures Valid() && link == None && config == old(config) && resolvedHost == old(resolvedHost)
      ensures log == old(log) + if old(link).Some? then [RADIO_DISCONNECTED] else []
    {
      CloseLocked();
    }

    /** Closes under the old configuration and swaps to the new one, forgetting a host that
        discovery had found. */
    method Reconfigure(wanted: Config)
      requires Valid()
      modifies this
      ensures Valid() && link == None && config == wanted && resolvedHost == wanted.flex.host
      ensures log == old(log) + if old(link).Some? then [RADIO_DISCONNECTED] else []
    {
      CloseLocked();
      config := wanted;
      resolvedHost := wanted.flex.host;
    }
  }
}
