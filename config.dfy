/** The configuration records: one Location per `location` block, one
    ServerData per `server` block, and the server-level defaults a server
    block collects for its locations. */
module Config {
  import opened Http
  import Strings

  /** SIZE_MAX on a 64-bit target. */
  const SIZE_MAX: nat := Strings.ULLONG_MAX

  datatype Location = Location(
    path: string,
    root: string,
    indexPage: string,
    autoindex: int,               // -1: not set in the block
    clientMaxBodySize: nat,       // SIZE_MAX: not set in the block
    allowedMethods: set<Method>,
    errorPages: map<int, string>,
    redirectPath: string,
    redirectCode: int)

  /** Location(): the member initialisers of struct Location. */
  const DefaultLocation: Location :=
    Location("", "", "", -1, SIZE_MAX, {Get, Post, Delete}, map[], "", 0)

  /** One (IPv4 address, port) pair of a listen line; the address is the
      uint32_t value with the first octet most significant, held as a
      natural number below 2^32. */
  datatype Listen = Listen(ip: nat, port: nat)

  datatype ServerData = ServerData(
    listenGroup: seq<Listen>,
    serverNames: seq<string>,
    locations: seq<Location>)

  const EmptyServer: ServerData := ServerData([], [], [])

  /** Server-level values that fill in what a location leaves unset. */
  datatype ConfigData = ConfigData(
    indexPage: string,
    autoindex: int,
    clientMaxBodySize: nat,
    errorPages: map<int, string>)

  const DefaultConfigData: ConfigData := ConfigData("", 0, 1048576, map[])

  /** Logger levels a `logging_level:` line can name. */
  datatype Level = Debug | Info | Warning | Error | Silence
}
