/**
  `knife instance create`: the subclass of the ZestKnife command that picks or
  checks the hostname, validates its own inputs on top of the base checks, and
  assembles the server definition handed to the cloud API. The command object
  extends a `Knife` instance; its own state is the hostname, the environment
  and the region `run` copies out of the config.
*/
module CreateCommand {
  import opened Basics
  import opened Registry
  import opened Hostname
  import opened ZestKnife

  /** The options `with_opts` registers for this command. */
  const PlainOptions: seq<string> := ["aws_ssh_key_id", "encrypted_data_bag_secret", "wait_for_it"]

  /** The options `with_validated_opts` registers and validates. */
  const ValidatedOptions: seq<string> := ["cluster_tag", "environment", "base_domain", "region"]

  /** The keys this command's `validate!` hands to the base checks. */
  const RequiredKeys: seq<string> := ["aws_access_key_id", "aws_secret_access_key", "flavor", "aws_ssh_key_id", "run_list"]

  /** The keys `create_server_def` always writes. */
  const ServerDefKeys: set<string> := {
    "image_id", "groups", "security_group_ids", "flavor_id", "key_name",
    "availability_zone", "subnet_id", "tags", "user_data", "iam_instance_profile_name"
  }

  /** The config keys `new_with_defaults` copies from its options hash. */
  const CopiedKeys: set<string> := {
    "aws_ssh_key_id", "aws_access_key_id", "aws_secret_access_key", "availability_zone",
    "encrypted_data_bag_secret", "wait_for_it", "image", "subnet_id"
  }

  /** The entries `new_with_defaults` writes: the four given values, and
      eight entries of `opts` (nil where `opts` has none). */
  function Defaults(environment: Value, region: Value, color: Value, baseDomain: Value, opts: map<string, Value>)
    : (d: map<string, Value>)
    ensures d.Keys == CopiedKeys + {"environment", "cluster_tag", "region", "base_domain"}
    ensures d["environment"] == environment && d["cluster_tag"] == color
    ensures d["region"] == region && d["base_domain"] == baseDomain
    ensures forall k :: k in CopiedKeys ==> d[k] == Get(opts, k)
  {
    (map k | k in CopiedKeys :: Get(opts, k))["environment" := environment]["cluster_tag" := color]
      ["region" := region]["base_domain" := baseDomain]
  }

  /** A value of the server definition: a config value, or the tags hash. */
  datatype Field = Plain(v: Value) | Tags(tags: map<string, Value>)

  const SecretMissing := "Could not find " + "encrypted data bag secret. " + "Tried "

  function ImageMessage(image: Value): string
  {
    "You have not " + "provided a valid image. " + "Tried to find '" + ToS(image) + "'."
  }

  /** `File.exists?` raises a `TypeError` for anything but a string path. */
  function PathTypeError(v: Value): string
  {
    "no implicit conversion of " +
    (match v
     case Nil => "nil"
     case Flag(b) => if b then "true" else "false"
     case List(_) => "Array"
     case Str(_) => "String") +
    " into String"
  }

  /** The errors this command's `validate!` reports before the hostname check:
      the missing secret file first, then the missing image; a secret path that
      is not a string raises. */
  function PreflightErrors(secret: Value, image: Value, existingFiles: set<string>, amiFound: bool): (r: Result<seq<string>>)
    ensures r.Raised? <==> !secret.Str?
    ensures r.Ok? ==> (SecretMissing + secret.s in r.value <==> secret.s !in existingFiles)
    ensures r.Ok? ==> (ImageMessage(image) in r.value <==> !amiFound)
    ensures r.Ok? ==> |r.value| == (if secret.s in existingFiles then 0 else 1) + (if amiFound then 0 else 1)
    ensures r.Ok? && secret.s !in existingFiles ==> r.value[0] == SecretMissing + secret.s
    ensures r.Ok? && !amiFound ==> r.value[|r.value| - 1] == ImageMessage(image)
  {
    if !secret.Str? then Raised(PathTypeError(secret))
    else
      var missing := if secret.s in existingFiles then [] else [SecretMissing + secret.s];
      var noImage := if amiFound then [] else [ImageMessage(image)];
      PreflightMessagesDiffer(secret.s, image);
      Ok(missing + noImage)
  }

  /** The two messages are told apart by their first letter. */
  lemma PreflightMessagesDiffer(path: string, image: Value)
    ensures SecretMissing + path != ImageMessage(image)
  {
    assert (SecretMissing + path)[0] == 'C';
    assert ImageMessage(image)[0] == 'Y';
  }

  /** The command class with its options declared, as lines 19-20 of the class body do. */
  method DeclareCommand() returns (c: Command, r: Result<()>)
    ensures fresh(c) && c.Valid()
    ensures r.Ok?
    ensures c.options == (set o | o in PlainOptions) + (set o | o in ValidatedOptions)
    ensures c.validatedOpts == ValidatedOptions
  {
    c := new Command();
    DeclaredOptionsKnown();
    r := c.WithOpts(PlainOptions);
    r := c.WithValidatedOpts(ValidatedOptions);
  }

  /** Every option the command declares is one `OPTS` knows, and every
      validated one has a validator, so neither declaration raises. */
  lemma DeclaredOptionsKnown()
    ensures Outside(PlainOptions, OptionKeys) == []
    ensures Outside(ValidatedOptions, OptionKeys) == []
    ensures Outside(ValidatedOptions, Validators.Keys) == []
  {
    assert forall x :: x in PlainOptions ==> x in OptionKeys;
    assert forall x :: x in ValidatedOptions ==> x in OptionKeys;
    assert forall x :: x in ValidatedOptions ==> x in Validators.Keys;
  }

  class InstanceCreate {
    /** The base command state this command extends. */
    const knife: Knife
    /** `attr_accessor :hostname` */
    var hostname: Option<string>
    var environment: Value
    var region: Value

    constructor (knife: Knife)
      ensures this.knife == knife && hostname == None && environment == Nil && region == Nil
    {
      this.knife := knife;
      hostname := None;
      environment := Nil;
      region := Nil;
    }

    /** The hostname as a Ruby value, nil when none is set. */
    function HostnameValue(): Value
      reads this
    {
      if hostname.Some? then Str(hostname.value) else Nil
    }

    /** `vpc_mode?`: a subnet is configured. */
    predicate VpcMode()
      reads knife
    {
      Truthy(Get(knife.config, "subnet_id"))
    }

    /** Lines 83-87 of `run`: the environment, the base domain, the hostname,
        the cluster color and the region come from the config; the hostname is
        `config[:hostname]` when it is set, and only otherwise generated (with
        the base domain already in place). When generation raises, the color
        and the region are not assigned. */
    method Configure(draws: seq<Draw>) returns (r: Result<()>)
      requires knife.Valid() && |draws| == Tries
      modifies this, knife`baseDomain, knife`color, knife`errors, knife`zoneCache
      ensures knife.Valid()
      ensures environment == Get(knife.config, "environment") && knife.baseDomain == Get(knife.config, "base_domain")
      ensures r.Ok? ==> knife.color == Get(knife.config, "cluster_tag") && region == Get(knife.config, "region")
      ensures r.Raised? ==> knife.color == old(knife.color) && region == old(region)
      ensures Get(knife.config, "hostname").Str? ==>
        r == Ok(()) && hostname == Some(Get(knife.config, "hostname").s) &&
        knife.errors == old(knife.errors) && knife.zoneCache == old(knife.zoneCache)
      ensures !Get(knife.config, "hostname").Str? ==>
        var a := Allocate(knife.Check(), knife.baseDomain, environment, draws, 0);
        (a.Raised? ==> r == Raised(a.message) && hostname == old(hostname)) &&
        (a.Ok? ==> r == Ok(()) && hostname == a.value) &&
        knife.errors == old(knife.errors) + (if a == Ok(None) then [Exhausted] else [])
    {
      environment := Get(knife.config, "environment");
      knife.baseDomain := Get(knife.config, "base_domain");
      var given := Get(knife.config, "hostname");
      r := Ok(());
      if given.Str? {
        hostname := Some(given.s);
      } else {
        var generated := knife.GenerateHostname(environment, draws);
        if generated.Raised? {
          return Raised(generated.message);
        }
        hostname := generated.value;
      }
      knife.color := Get(knife.config, "cluster_tag");
      region := Get(knife.config, "region");
    }

    /** `create_server_def`: the definition of the server to create, with the
        generated user data unless `without_user_data` is set; the public IP
        flag is added exactly in VPC mode. */
    method CreateServerDef(userData: string) returns (server: map<string, Field>)
      ensures server.Keys == ServerDefKeys + (if VpcMode() then {"associate_public_ip"} else {})
      ensures VpcMode() ==> server["associate_public_ip"] == Plain(Flag(true))
      ensures server["tags"] == Tags(map["Name" := HostnameValue(), "environment" := environment])
      ensures server["security_group_ids"] == Plain(Get(knife.config, "security_group_ids"))
      ensures server["subnet_id"] == Plain(Get(knife.config, "subnet_id"))
      ensures server["groups"] == Plain(Get(knife.config, "security_groups"))
      ensures server["image_id"] == Plain(Get(knife.config, "image"))
      ensures server["flavor_id"] == Plain(Get(knife.config, "flavor"))
      ensures server["key_name"] == Plain(Get(knife.config, "aws_ssh_key_id"))
      ensures server["availability_zone"] == Plain(Get(knife.config, "availability_zone"))
      ensures server["iam_instance_profile_name"] == Plain(Get(knife.config, "iam_role"))
      ensures server["user_data"] == Plain(Str(if Truthy(Get(knife.config, "without_user_data")) then "" else userData))
    {
      var config := knife.config;
      server := map[
        "image_id" := Plain(Get(config, "image")),
        "groups" := Plain(Get(config, "security_groups")),
        "security_group_ids" := Plain(Get(config, "security_group_ids")),
        "flavor_id" := Plain(Get(config, "flavor")),
        "key_name" := Plain(Get(config, "aws_ssh_key_id")),
        "availability_zone" := Plain(Get(config, "availability_zone")),
        "subnet_id" := Plain(Get(config, "subnet_id")),
        "tags" := Tags(map["Name" := HostnameValue(), "environment" := environment]),
        "user_data" := Plain(Str(if Truthy(Get(config, "without_user_data")) then "" else userData)),
        "iam_instance_profile_name" := Plain(Get(config, "iam_role"))
      ];
      if VpcMode() {
        server := server["associate_public_ip" := Plain(Flag(true))];
      }
    }

    /** `validate!`: the secret-file and image errors, the hostname errors,
        then the base checks with this command's required keys; exits exactly
        when some error was collected. `existingFiles` stands for the file
        system and `amiFound` for whether the image lookup found an image.
        A secret path that is not a string raises before any error is added; a
        raising hostname check keeps the secret and image errors already added. */
    method Validate(existingFiles: set<string>, amiFound: bool) returns (r: Result<bool>)
      requires knife.Valid() && knife.command.Valid()
      modifies knife`errors, knife`zoneCache
      ensures knife.Valid()
      ensures var pre := PreflightErrors(Get(knife.config, "encrypted_data_bag_secret"), Get(knife.config, "image"), existingFiles, amiFound);
        var names := HostnameErrors(knife.Check(), knife.validPrefix, knife.alphaDigits, hostname);
        (r.Raised? <==> pre.Raised? || names.Raised?) &&
        (pre.Raised? ==> r == Raised(pre.message) && knife.errors == old(knife.errors)) &&
        (pre.Ok? && names.Raised? ==> r == Raised(names.message) && knife.errors == old(knife.errors) + pre.value) &&
        (r.Ok? ==>
          knife.errors == old(knife.errors) + pre.value + names.value +
            ValidateErrors(RequiredKeys, knife.knifeConfig, knife.config, knife.command.validatedOpts, knife.color) &&
          (r.value <==> knife.errors != []))
    {
      var pre := PreflightErrors(Get(knife.config, "encrypted_data_bag_secret"), Get(knife.config, "image"), existingFiles, amiFound);
      if pre.Raised? {
        return Raised(pre.message);
      }
      knife.errors := knife.errors + pre.value;
      var checked := knife.ValidateHostname(hostname);
      if checked.Raised? {
        return Raised(checked.message);
      }
      var exits := knife.Validate(RequiredKeys);
      r := Ok(exits);
    }

    /** `InstanceCreate.new_with_defaults`: on a new command, writes the
        config entries `Defaults` lists; every other entry is left alone. */
    static method NewWithDefaults(knife: Knife, environment: Value, region: Value, color: Value, baseDomain: Value,
                                  opts: map<string, Value>) returns (ic: InstanceCreate)
      modifies knife`config
      ensures fresh(ic) && ic.knife == knife && ic.hostname == None
      ensures knife.config == old(knife.config) + Defaults(environment, region, color, baseDomain, opts)
    {
      ic := new InstanceCreate(knife);
      knife.config := knife.config + Defaults(environment, region, color, baseDomain, opts);
    }
  }
}
