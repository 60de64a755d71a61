/** Settings of the device authorization grant: how long a new device grant
    lives and which generator makes its user code. A configuration step
    replaces every setting: one it does not mention takes its default. */
module Configuration {
  import opened Wrappers
  import opened UserCode

  /** Default lifetime of a device grant, in seconds. */
  const DefaultExpiresIn: nat := 300

  datatype Config = Config(deviceCodeExpiresIn: nat, userCodeGenerator: Generator)

  /** The settings a configuration step names; absent ones take defaults. */
  datatype Options = Options(deviceCodeExpiresIn: Option<nat>, userCodeGenerator: Option<Generator>)

  /** A duration of `m` minutes, in seconds. */
  function Minutes(m: nat): (seconds: nat)
    ensures seconds / 60 == m && seconds % 60 == 0
  {
    60 * m
  }

  /** The configuration in force when nothing was configured. */
  function DefaultConfig(): (c: Config)
    ensures c.deviceCodeExpiresIn == 300
    ensures forall draw :: IsDefaultFormat(c.userCodeGenerator(draw))
  {
    Config(DefaultExpiresIn, DefaultGenerator)
  }

  /** One configuration step. */
  function Configure(opts: Options): (c: Config)
    ensures opts.deviceCodeExpiresIn.Some? ==> c.deviceCodeExpiresIn == opts.deviceCodeExpiresIn.value
    ensures opts.deviceCodeExpiresIn.None? ==> c.deviceCodeExpiresIn == DefaultConfig().deviceCodeExpiresIn
    ensures opts.userCodeGenerator.Some? ==> c.userCodeGenerator == opts.userCodeGenerator.value
    ensures opts.userCodeGenerator.None? ==> c.userCodeGenerator == DefaultConfig().userCodeGenerator
  {
    Config(opts.deviceCodeExpiresIn.GetOr(DefaultExpiresIn),
           opts.userCodeGenerator.GetOr(DefaultGenerator))
  }

  /** The options that name every setting of `c`. */
  function OptionsOf(c: Config): Options {
    Options(Some(c.deviceCodeExpiresIn), Some(c.userCodeGenerator))
  }

  /** Configuring with every setting saved from a configuration restores
      that configuration. */
  lemma RestoreConfiguration(saved: Config)
    ensures Configure(OptionsOf(saved)) == saved
  {
  }
}
