/** The runtime configuration of the proxy (`struct Config`) and the
    loader that fills it from the command line (`parse_and_load_config`). */
module ProxyConfig {
  import opened CStrings
  import opened CNumbers

  /** `struct Config`: every numeric field is a C `int`; flags are tested
      for being non-zero, as the C code does. */
  datatype Config = Config(
    socketMaxPending: int,
    socketBindPort: int,
    socketReuseAddr: int,
    timeout504Seconds: int,
    memoryConnectionBuffer: int,
    loggingVerbose: int,
    targetPort: int,
    targetHost: string,
    errorShowVersion: int)

  /** The initialiser of the local `loaden_config`. */
  const Defaults: Config := Config(
    socketMaxPending := 32,
    socketBindPort := 8081,
    socketReuseAddr := 1,
    timeout504Seconds := 2,
    memoryConnectionBuffer := 1024,
    loggingVerbose := 0,
    targetPort := 3000,
    targetHost := "localhost",
    errorShowVersion := 1)

  /** What the rest of the proxy relies on: a buffer size `snprintf` can
      write its terminator into, a host that is a C string, a port that is
      a C `int`. */
  predicate WellFormed(config: Config) {
    && config.memoryConnectionBuffer >= 1
    && IsCString(config.targetHost)
    && IsInt(config.targetPort)
  }

  /** `parse_and_load_config(argc, argv)` with `argc == |argv|`: start from
      the defaults and override them by position. `atoi` has no range check
      in the source; the model only covers ports `atoi` can represent. */
  method ParseAndLoadConfig(argv: seq<string>) returns (config: Config)
    requires forall i :: 0 <= i < |argv| ==> IsCString(argv[i])
    requires |argv| > 2 ==> IsInt(Atoi(argv[2]))
    ensures |argv| <= 1 ==> config == Defaults
    ensures config.targetHost == if |argv| > 1 then argv[1] else "localhost"
    ensures config.targetPort == if |argv| > 2 then Atoi(argv[2]) else 3000
    ensures config.loggingVerbose == if |argv| > 3 && argv[3] == "--verbose" then 1 else 0
    ensures config.(targetHost := "localhost", targetPort := 3000, loggingVerbose := 0) == Defaults
    ensures WellFormed(config) && config.memoryConnectionBuffer == 1024
  {
    var loaded := Defaults;
    if |argv| > 1 {
      loaded := loaded.(targetHost := argv[1]);
      if |argv| > 2 {
        loaded := loaded.(targetPort := Atoi(argv[2]));
      }
      if |argv| > 3 {
        loaded := loaded.(loggingVerbose := if argv[3] == "--verbose" then 1 else 0);
      }
    }
    config := loaded;
  }
}
