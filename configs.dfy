/** The parts of the engine's configuration that the façades read or write. */
module Configs {
  import opened Modes
  import opened Logging

  /** Listening and global settings (`config.General`). */
  datatype General = General(mixedPort: int, allowLan: bool, mode: TunnelMode, logLevel: LogLevel, ipv6: bool)

  datatype Dns = Dns(enable: bool, ipv6: bool, listen: string, nameServers: seq<string>)

  /** Persistence switches (`config.Profile`). */
  datatype Profile = Profile(storeSelected: bool, storeFakeIP: bool)

  datatype Config = Config(general: General, dns: Dns, profile: Profile, proxies: seq<string>, rules: seq<string>)

  /** The restricted reload of `SetConfig`: the profile's own general
      settings are replaced by the base configuration's, its DNS server and
      its selection store are switched off, and everything else is the
      profile's. */
  function ProfileOverride(profile: Config, base: Config): (r: Config)
    ensures r.general == base.general
    ensures !r.dns.enable && !r.profile.storeSelected
    ensures r.dns.ipv6 == profile.dns.ipv6 && r.dns.listen == profile.dns.listen
    ensures r.dns.nameServers == profile.dns.nameServers
    ensures r.profile.storeFakeIP == profile.profile.storeFakeIP
    ensures r.proxies == profile.proxies && r.rules == profile.rules
  {
    profile.(general := base.general,
             dns := profile.dns.(enable := false),
             profile := profile.profile.(storeSelected := false))
  }

  /** Overriding a configuration that is already overridden against the same
      base changes nothing: the override is a fixed point. */
  lemma ProfileOverrideIdempotent(profile: Config, base: Config)
    ensures ProfileOverride(ProfileOverride(profile, base), base) == ProfileOverride(profile, base)
  {
  }
}
