/**
  The ZestKnife base command. `Command` holds what the Ruby class object holds
  (the options registered by `with_opts`, the list `validates` builds);
  `Knife` holds what one command instance holds: the append-only error list,
  the two config hashes, the base domain, the cluster color and the memo of
  the default DNS zone. The registries, the `domain` the instance answers, and
  the two hostname-shape predicates (not defined in the files modelled) are
  fixed when the instance is made.
*/
module ZestKnife {
  import opened Basics
  import opened Registry
  import opened Hostname

  /** The keys of `OPTS`. */
  const OptionKeys: set<string> := {
    "aws_access_key_id", "aws_secret_access_key", "cluster_tag", "environment", "region",
    "encrypted_data_bag_secret", "aws_ssh_key_id", "base_domain", "wait_for_it", "prod"
  }

  /** The validator methods `VALIDATORS` names. */
  datatype Validator = ValidateEnv | ValidateDomain | ValidateColor | ValidateProd | ValidateRegion

  const Validators: map<string, Validator> := map[
    "environment" := ValidateEnv,
    "base_domain" := ValidateDomain,
    "cluster_tag" := ValidateColor,
    "prod" := ValidateProd,
    "region" := ValidateRegion
  ]

  function WithOptsMessage(invalid: seq<string>): string
  {
    "Invalid option(s) passed to with_opts: " + Join(invalid, ", ")
  }

  /** `#{args - VALIDATORS.keys}` shows an array of symbols. */
  function ValidatesMessage(invalid: seq<string>): string
  {
    "Invalid argument(s) passed to validates: [" + Join(seq(|invalid|, i requires 0 <= i < |invalid| => ":" + invalid[i]), ", ") + "]"
  }

  /** The class-level state of a knife command class. */
  class Command {
    var options: set<string>
    var validatedOpts: seq<string>

    /** Every validated option has a validator. */
    ghost predicate Valid()
      reads this
    {
      forall o :: o in validatedOpts ==> o in Validators
    }

    constructor ()
      ensures Valid() && options == {} && validatedOpts == []
    {
      options := {};
      validatedOpts := [];
    }

    /** `with_opts`: refuses the whole call if any argument is not a key of
        `OPTS`, else registers each as a command-line option. */
    method WithOpts(args: seq<string>) returns (r: Result<()>)
      modifies this`options
      ensures r == if Outside(args, OptionKeys) == [] then Ok(()) else Raised(WithOptsMessage(Outside(args, OptionKeys)))
      ensures r.Ok? ==> options == old(options) + (set a | a in args)
      ensures r.Raised? ==> options == old(options)
    {
      var invalid := Outside(args, OptionKeys);
      if invalid != [] {
        return Raised(WithOptsMessage(invalid));
      }
      for i := 0 to |args|
        invariant options == old(options) + (set a | a in args[..i])
      {
        assert args[..i + 1] == args[..i] + [args[i]];
        options := options + {args[i]};
      }
      assert args[..|args|] == args;
      r := Ok(());
    }

    /** `validates`: refuses arguments without a validator, else appends them to `validated_opts`. */
    method Validates(args: seq<string>) returns (r: Result<()>)
      requires Valid()
      modifies this`validatedOpts
      ensures Valid()
      ensures r == if Outside(args, Validators.Keys) == [] then Ok(()) else Raised(ValidatesMessage(Outside(args, Validators.Keys)))
      ensures validatedOpts == if r.Ok? then old(validatedOpts) + args else old(validatedOpts)
    {
      var invalid := Outside(args, Validators.Keys);
      if invalid != [] {
        return Raised(ValidatesMessage(invalid));
      }
      validatedOpts := validatedOpts + args;
      r := Ok(());
    }

    /** `with_validated_opts`: `with_opts`, then `validates`. When only
        `validates` raises, the options `with_opts` added stay declared. */
    method WithValidatedOpts(args: seq<string>) returns (r: Result<()>)
      requires Valid()
      modifies this
      ensures Valid()
      ensures r.Ok? <==> Outside(args, OptionKeys) == [] && Outside(args, Validators.Keys) == []
      ensures r.Ok? ==> options == old(options) + (set a | a in args) && validatedOpts == old(validatedOpts) + args
      ensures Outside(args, OptionKeys) != [] ==>
                r == Raised(WithOptsMessage(Outside(args, OptionKeys))) &&
                options == old(options) && validatedOpts == old(validatedOpts)
      ensures Outside(args, OptionKeys) == [] && Outside(args, Validators.Keys) != [] ==>
                r == Raised(ValidatesMessage(Outside(args, Validators.Keys))) &&
                options == old(options) + (set a | a in args) && validatedOpts == old(validatedOpts)
    {
      r := WithOpts(args);
      if r.Raised? {
        return;
      }
      r := Validates(args);
    }
  }

  class Knife {
    const command: Command
    const registries: Registries
    /** What `domain` answers ("" in the base class). */
    const domain: string
    /** `hostname_starts_with_valid_prefix?` */
    const validPrefix: string -> bool
    /** `hostname_is_alpha_followed_by_numbers?` */
    const alphaDigits: string -> bool

    var errors: seq<string>
    /** `Chef::Config[:knife]` */
    var knifeConfig: map<string, Value>
    var config: map<string, Value>
    var baseDomain: Value
    var color: Value
    /** `@zone` */
    var zoneCache: Option<Zone>

    /** The memo only ever holds the zone the lookup finds. */
    ghost predicate Valid()
      reads this`zoneCache
    {
      zoneCache.Some? ==> zoneCache == DetectZone(registries.zones, domain)
    }

    constructor (command: Command, registries: Registries, domain: string, validPrefix: string -> bool,
                 alphaDigits: string -> bool, knifeConfig: map<string, Value>, config: map<string, Value>)
      ensures Valid()
      ensures this.command == command && this.registries == registries && this.domain == domain
      ensures this.validPrefix == validPrefix && this.alphaDigits == alphaDigits
      ensures this.knifeConfig == knifeConfig && this.config == config
      ensures errors == [] && baseDomain == Nil && color == Nil && zoneCache == None
    {
      this.command := command;
      this.registries := registries;
      this.domain := domain;
      this.validPrefix := validPrefix;
      this.alphaDigits := alphaDigits;
      this.knifeConfig := knifeConfig;
      this.config := config;
      errors := [];
      baseDomain := Nil;
      color := Nil;
      zoneCache := None;
    }

    /** `errors?` */
    predicate HasErrors()
      reads this
      ensures HasErrors() <==> |errors| > 0
    {
      errors != []
    }

    /** `check_services` as a function of a name, for the specifications. */
    function Check(): Checker
    {
      name => Registry.CheckServices(registries, domain, name)
    }

    /** `setup_config`: copies each key's environment variable into knife's
        config where that config has no value for it. */
    method SetupConfig(keys: seq<string>, env: map<string, string>)
      modifies this`knifeConfig
      ensures forall k :: k in keys && Get(old(knifeConfig), k).Nil? && k in env ==>
                k in knifeConfig && knifeConfig[k] == Str(env[k])
      ensures forall k :: !(k in keys && Get(old(knifeConfig), k).Nil? && k in env) ==>
                Get(knifeConfig, k) == Get(old(knifeConfig), k) && (k in knifeConfig <==> k in old(knifeConfig))
    {
      ghost var before := knifeConfig;
      for i := 0 to |keys|
        invariant forall k :: k in keys[..i] && Get(before, k).Nil? && k in env ==>
                    k in knifeConfig && knifeConfig[k] == Str(env[k])
        invariant forall k :: !(k in keys[..i] && Get(before, k).Nil? && k in env) ==>
                    Get(knifeConfig, k) == Get(before, k) && (k in knifeConfig <==> k in before)
      {
        var k := keys[i];
        assert forall x :: x in keys[..i + 1] <==> x in keys[..i] || x == k;
        if Get(knifeConfig, k).Nil? && k in env {
          knifeConfig := knifeConfig[k := Str(env[k])];
        }
      }
      assert keys[..|keys|] == keys;
    }

    /** `zone`: the default DNS zone, looked up on first use and memoised. */
    method DefaultZone() returns (r: Result<Zone>)
      requires Valid()
      modifies this`zoneCache
      ensures Valid()
      ensures r == match DetectZone(registries.zones, domain) case Some(z) => Ok(z) case None => Raised(ZoneNotFound)
      ensures old(zoneCache).Some? ==> zoneCache == old(zoneCache)
      ensures r.Ok? ==> zoneCache == Some(r.value)
    {
      if zoneCache.None? {
        var regions := registries.zones;
        for i := 0 to |regions|
          invariant zoneCache == DetectZone(regions[..i], domain)
        {
          assert regions[..i + 1][..i] == regions[..i];
          if zoneCache.None? {
            zoneCache := DetectInRegion(regions[i], domain);
          }
        }
        assert regions[..|regions|] == regions;
      }
      if zoneCache.None? {
        return Raised(ZoneNotFound);
      }
      r := Ok(zoneCache.value);
    }

    /** `find_r53`, using the memoised default zone. */
    method FindR53(name: string) returns (r: Result<seq<Entity>>)
      requires Valid()
      modifies this`zoneCache
      ensures Valid()
      ensures r == Registry.FindR53(registries, domain, name)
      ensures old(zoneCache).Some? ==> zoneCache == old(zoneCache)
    {
      var inZone := registries.zoneFromName(name);
      var query := name;
      if inZone.None? {
        var z := DefaultZone();
        if z.Raised? {
          return Raised(z.message);
        }
        inZone := Some(z.value);
        query := Fqdn(domain, Some(name));
      }
      query := EnsureDot(query);
      r := Ok(R53Records(inZone.value, query));
    }

    /** `check_services` */
    method CheckServices(name: string) returns (r: Result<seq<Entity>>)
      requires Valid()
      modifies this`zoneCache
      ensures Valid()
      ensures r == Check()(name)
      ensures old(zoneCache).Some? ==> zoneCache == old(zoneCache)
    {
      var node := FindItem(registries.loadNode(name));
      if node.Raised? {
        return Raised(node.message);
      }
      var client := FindItem(registries.loadClient(name));
      if client.Raised? {
        return Raised(client.message);
      }
      var ec2 := FindEc2(registries.servers, name);
      var r53 := FindR53(name);
      if r53.Raised? {
        return Raised(r53.message);
      }
      r := Ok(node.value + client.value + ec2 + r53.value);
    }

    /** One pass of `generate_hostname`'s loop: a raise aborts the search, a free
        candidate ends it, a taken one (`Ok(None)`) leaves the rest to the next draw. */
    method Attempt(env: Value, draws: seq<Draw>, k: nat) returns (r: Result<Option<string>>)
      requires Valid() && |draws| == Tries && k < Tries
      modifies this`zoneCache
      ensures Valid()
      ensures r == Ok(None) ==> Allocate(Check(), baseDomain, env, draws, k) == Allocate(Check(), baseDomain, env, draws, k + 1)
      ensures r != Ok(None) ==> Allocate(Check(), baseDomain, env, draws, k) == r
    {
      var candidate := RandomHostname(baseDomain, env, draws[k]);
      if candidate.Raised? {
        return Raised(candidate.message);
      }
      var conflicts := CheckServices(candidate.value);
      if conflicts.Raised? {
        return Raised(conflicts.message);
      }
      r := if conflicts.value == [] then Ok(Some(candidate.value)) else Ok(None);
    }

    /** `generate_hostname`: at most five candidates; the first that no registry
        holds is returned; after five taken candidates, nil and one error. */
    method GenerateHostname(env: Value, draws: seq<Draw>) returns (r: Result<Option<string>>)
      requires Valid() && |draws| == Tries
      modifies this`errors, this`zoneCache
      ensures Valid()
      ensures r == Allocate(Check(), baseDomain, env, draws, 0)
      ensures errors == old(errors) + (if r == Ok(None) then [Exhausted] else [])
    {
      ghost var goal := Allocate(Check(), baseDomain, env, draws, 0);
      r := Ok(None);
      var i := 0;
      while i < Tries && r == Ok(None)
        invariant 0 <= i <= Tries
        invariant Valid() && errors == old(errors)
        invariant r == Ok(None) ==> goal == Allocate(Check(), baseDomain, env, draws, i)
        invariant r != Ok(None) ==> goal == r
      {
        r := Attempt(env, draws, i);
        i := i + 1;
      }
      if r == Ok(None) {
        errors := errors + [Exhausted];
      }
    }

    /** The "already exists" error for each registry entry found under `h`, in order. */
    method ReportExisting(h: string, found: seq<Entity>)
      modifies this`errors
      ensures errors == old(errors) + ExistsMessages(h, found)
    {
      for i := 0 to |found|
        invariant errors == old(errors) + ExistsMessages(h, found[..i])
      {
        ExistsMessagesSnoc(h, found, i);
        errors := errors + [ExistsMessage(h, found[i])];
      }
      assert found[..|found|] == found;
    }

    /** `validate_hostname`: appends the errors `HostnameErrors` lists. */
    method ValidateHostname(hostname: Option<string>) returns (r: Result<()>)
      requires Valid()
      modifies this`errors, this`zoneCache
      ensures Valid()
      ensures HostnameErrors(Check(), validPrefix, alphaDigits, hostname).Raised? ==>
                r == Raised(HostnameErrors(Check(), validPrefix, alphaDigits, hostname).message) && errors == old(errors)
      ensures HostnameErrors(Check(), validPrefix, alphaDigits, hostname).Ok? ==>
                r == Ok(()) && errors == old(errors) + HostnameErrors(Check(), validPrefix, alphaDigits, hostname).value
    {
      if hostname == None || hostname == Some("") {
        errors := errors + [Blank];
        return Ok(());
      }
      var h := hostname.value;
      var services := CheckServices(h);
      if services.Raised? {
        return Raised(services.message);
      }
      ReportExisting(h, services.value);
      if !validPrefix(h) {
        errors := errors + [BadPrefix];
      }
      if !alphaDigits(h) {
        errors := errors + [NotDigits];
      }
      r := Ok(());
    }

    /** `validate_color` */
    method ValidateColorOption()
      modifies this`errors
      ensures errors == old(errors) + (if Truthy(color) then [] else [NoColor])
    {
      if !Truthy(color) {
        errors := errors + [NoColor];
      }
    }

    /** `send VALIDATORS[opt]`: only `validate_color` does anything. */
    method RunValidator(opt: string)
      requires opt in Validators
      modifies this`errors
      ensures errors == old(errors) + (if opt == "cluster_tag" && !Truthy(color) then [NoColor] else [])
    {
      match Validators[opt]
      case ValidateColor => ValidateColorOption();
      case _ =>
    }

    /** `validate!(keys)`: one error per key missing from both configs, then the
        registered validators; exits exactly when the error list is non-empty,
        errors found earlier included. */
    method Validate(keys: seq<string>) returns (exits: bool)
      requires command.Valid()
      modifies this`errors
      ensures errors == old(errors) + ValidateErrors(keys, knifeConfig, config, command.validatedOpts, color)
      ensures exits <==> errors != []
    {
      for i := 0 to |keys|
        invariant errors == old(errors) + MissingKeyErrors(keys[..i], knifeConfig, config)
      {
        var k := keys[i];
        assert keys[..i + 1][..i] == keys[..i];
        if Missing(knifeConfig, config, k) {
          errors := errors + [MissingKeyMessage(k)];
        }
      }
      assert keys[..|keys|] == keys;
      ghost var afterKeys := errors;
      var opts := command.validatedOpts;
      for i := 0 to |opts|
        invariant errors == afterKeys + ValidatorErrors(opts[..i], color)
      {
        assert opts[..i + 1][..i] == opts[..i];
        RunValidator(opts[i]);
      }
      assert opts[..|opts|] == opts;
      exits := errors != [];
    }
  }

  /** Validating a generated name: a hostname allocated from free candidates
      passes the uniqueness part of `validate_hostname` with no error. */
  lemma GeneratedNameIsFree(k: Knife, env: Value, draws: seq<Draw>)
    requires |draws| == Tries
    requires Allocate(k.Check(), k.baseDomain, env, draws, 0).Ok?
    requires Allocate(k.Check(), k.baseDomain, env, draws, 0).value.Some?
    ensures var h := Allocate(k.Check(), k.baseDomain, env, draws, 0).value.value;
      HostnameErrors(k.Check(), k.validPrefix, k.alphaDigits, Some(h)).Ok? &&
      (HostnameErrors(k.Check(), k.validPrefix, k.alphaDigits, Some(h)).value == [] <==> k.validPrefix(h) && k.alphaDigits(h))
  {
    var h := Allocate(k.Check(), k.baseDomain, env, draws, 0).value.value;
    AllocateFound(k.Check(), k.baseDomain, env, draws, 0);
    var j :| 0 <= j < Tries && Candidate(k.baseDomain, env, draws, j) == Ok(h) && k.Check()(h) == Ok([]);
    RandomHostnameShape(k.baseDomain, env, draws[j]);
    HostnameErrorsContent(k.Check(), k.validPrefix, k.alphaDigits, h);
  }
}
