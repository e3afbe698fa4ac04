/**
 * The server's configuration: the built-in defaults and the spread merge
 * `{ ...DefaultValue, ...config }` done by the constructor.
 */
module ServerConfig {
  import opened Http

  datatype Config = Config(port: int, dir: string, pic: seq<string>)

  /** `DefaultValue`: port 3000, the current directory, and the picture extensions. */
  const Default := Config(3000, "./", [".png", ".jpeg", ".gif", ".jpg"])

  /** The options object a caller passes; None marks a property it does not have. */
  datatype UserConfig = UserConfig(port: Option<int>, dir: Option<string>, pic: Option<seq<string>>)

  /** Every property the caller gives wins over the default; the others keep the default. */
  function Merge(user: UserConfig): (c: Config)
    ensures user.port.Some? ==> c.port == user.port.value
    ensures user.port.None? ==> c.port == Default.port
    ensures user.dir.Some? ==> c.dir == user.dir.value
    ensures user.dir.None? ==> c.dir == Default.dir
    ensures user.pic.Some? ==> c.pic == user.pic.value
    ensures user.pic.None? ==> c.pic == Default.pic
  {
    Config(
      match user.port case Some(p) => p case None => Default.port,
      match user.dir case Some(d) => d case None => Default.dir,
      match user.pic case Some(x) => x case None => Default.pic)
  }

  /** The options object that has every property of `c`. */
  function Full(c: Config): UserConfig
  {
    UserConfig(Some(c.port), Some(c.dir), Some(c.pic))
  }

  /** An empty options object leaves `DefaultValue` as it is. */
  lemma MergeEmptyIsDefault()
    ensures Merge(UserConfig(None, None, None)) == Default
  {
  }

  /** An options object that sets every property replaces the defaults entirely. */
  lemma MergeFullOverrides(c: Config)
    ensures Merge(Full(c)) == c
  {
  }

  /** The command line gives only `port` and `dir`: the picture list is always the default one. */
  lemma CommandLineKeepsDefaultPictures(port: int, dir: string)
    ensures Merge(UserConfig(Some(port), Some(dir), None)) == Config(port, dir, Default.pic)
  {
  }
}
