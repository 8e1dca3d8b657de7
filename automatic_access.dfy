/**
 * Aker::Authorities::AutomaticAccess: an authority that grants every user
 * the configured portal, adding it to the user's portals and making it the
 * default portal when the user has none.
 */
module Authorities {
  import opened Wrappers

  type Portal = string

  /** The part of the configuration the authority reads. */
  datatype Configuration = Configuration(portal: Option<Portal>)

  const UnnecessaryMessage := "AutomaticAccess is unnecessary if you don't have a portal configured."

  /** A user, with the two fields the authority updates in place. */
  class User {
    const username: string
    var portals: seq<Portal>
    var defaultPortal: Option<Portal>

    constructor (username: string, portals: seq<Portal>, defaultPortal: Option<Portal>)
      ensures this.username == username && this.portals == portals && this.defaultPortal == defaultPortal
    {
      this.username := username;
      this.portals := portals;
      this.defaultPortal := defaultPortal;
    }
  }

  /** The portal list after amplification. */
  function WithPortal(portals: seq<Portal>, portal: Portal): (r: seq<Portal>)
    ensures portal in r
    ensures |portals| <= |r| <= |portals| + 1 && r[..|portals|] == portals
    ensures multiset(r) == multiset(portals) + (if portal in portals then multiset{} else multiset{portal})
  {
    if portal in portals then portals else portals + [portal]
  }

  /** The default portal after amplification. */
  function DefaultOr(current: Option<Portal>, portal: Portal): (r: Option<Portal>)
    ensures r.Some?
    ensures current.Some? ==> r == current
    ensures current.None? ==> r == Some(portal)
  {
    if current.Some? then current else Some(portal)
  }

  predicate NoDuplicates(portals: seq<Portal>) {
    forall i, j :: 0 <= i < j < |portals| ==> portals[i] != portals[j]
  }

  /** Amplifying twice leaves the same portals and default portal as amplifying once. */
  lemma AmplifyIdempotent(portals: seq<Portal>, current: Option<Portal>, portal: Portal)
    ensures WithPortal(WithPortal(portals, portal), portal) == WithPortal(portals, portal)
    ensures DefaultOr(DefaultOr(current, portal), portal) == DefaultOr(current, portal)
  {
  }

  /** A portal list without duplicates stays without duplicates. */
  lemma AmplifyAddsNoDuplicate(portals: seq<Portal>, portal: Portal)
    requires NoDuplicates(portals)
    ensures NoDuplicates(WithPortal(portals, portal))
  {
  }

  class AutomaticAccess {
    /** The configured portal. */
    const portal: Portal

    constructor FromPortal(portal: Portal)
      ensures this.portal == portal
    {
      this.portal := portal;
    }

    /** `amplify!`: adds the portal if it is missing, sets the default if unset, returns the same user. */
    method Amplify(user: User) returns (amplified: User)
      modifies user
      ensures amplified == user
      ensures user.portals == WithPortal(old(user.portals), portal)
      ensures user.defaultPortal == DefaultOr(old(user.defaultPortal), portal)
    {
      if portal !in user.portals {
        user.portals := user.portals + [portal];
      }
      if user.defaultPortal.None? {
        user.defaultPortal := Some(portal);
      }
      amplified := user;
    }
  }

  /** `initialize`: refuses a configuration without a portal, otherwise keeps its portal. */
  method New(configuration: Configuration) returns (r: Result<AutomaticAccess, string>)
    ensures configuration.portal.None? ==> r == Failure(UnnecessaryMessage)
    ensures configuration.portal.Some? ==>
      r.Success? && fresh(r.value) && r.value.portal == configuration.portal.value
  {
    if configuration.portal.None? {
      return Failure(UnnecessaryMessage);
    }
    var authority := new AutomaticAccess.FromPortal(configuration.portal.value);
    return Success(authority);
  }
}
