# knife-instance in Dafny

A model of the logic of `knife instance create`, a Chef `knife` plugin. The
plugin picks a hostname for a new EC2 instance, checks that the name is free
in every registry, validates the command's options, and builds the server
definition and the bootstrap payload the instance boots with.

- `ZestKnife` (zestknife.dfy) is the base command as a class. Its fields are:
  - the append-only `errors` list;
  - the knife config and the command config;
  - the base domain and the cluster color;
  - the `@zone` memo.

  Its methods run the source's steps one by one:
  - `generate_hostname` (five tries);
  - `validate_hostname`;
  - `check_services`;
  - `find_r53`;
  - `setup_config`;
  - `validate!`;
  - `with_opts` / `validates`, on a `Command` class that holds the declared options.
- `Hostname` (hostname.dfy) holds the same rules as functions, and the lemmas about them:
  - the candidate `<base-domain initial><environment initial><three digits>`;
  - the outcome of the five tries;
  - the errors of `validate_hostname` and of `validate!`.
- `Registry` (registry.dfy) holds the four registries a name is checked against:
  - Chef nodes;
  - Chef API clients;
  - EC2 servers, grouped by their Name tag and merged region by region;
  - Route53 records, with the name normalisation and the default-zone fallback.
- `Bootstrap` (bootstrap.dfy) is the `BootstrapGenerator` value. It covers:
  - the first-boot JSON document, proved to parse back field by field;
  - the chef client configuration text, proved to read back line by line;
  - the start command;
  - the two secret-file readers.

  `Json` (json.dfy) is the JSON text the document is serialised to, with a
  reader proved to invert it.
- `RunList` (runlist.dfy) is the `--run-list` option: `split(/[\s,]+/)`, with
  `["role[base]"]` as the default.
- `CreateCommand` (instance_create.dfy) is the `InstanceCreate` subclass. It covers:
  - the hostname choice in `run`;
  - its `validate!`;
  - `create_server_def`;
  - `new_with_defaults`;
  - its option declarations.

Ruby's exceptions are the `Raised` case of `Result`.

These things are parameters instead of being computed:
- The random source is a sequence of five draws in `[0, 1000)`.
- The registries are an explicit value (`Registry.Registries`). Node and client loads and `zone_from_name` are functions. Servers and zones are lists, one per region.
- The file system is a map from path to contents, or a set of existing paths.
- The two hostname-shape predicates that `validate_hostname` calls are parameters. They are not defined in the files modelled.

## Model

| member | source | states |
|---|---|---|
| Basics.Outside | lib/knife-instance/zestknife.rb:138 | the arguments not among the known keys, in order; empty exactly when every argument is known |
| Basics.OutsideSingle | lib/knife-instance/zestknife.rb:138 | one argument is rejected exactly when it is not a known key |
| Basics.OutsideSnoc | lib/knife-instance/zestknife.rb:138 | one more argument at the end adds it at the end of the rejected ones exactly when it is unknown |
| Basics.OutsideAppend | lib/knife-instance/zestknife.rb:138 | the rejected arguments of a concatenation are those of each part, concatenated: order and repetitions are those of the arguments |
| Registry.FindItem | lib/knife-instance/zestknife.rb:26-33 | a loaded object gives the one-element list of that object, a 4xx answer gives `[]`, and any other failure raises |
| Registry.GroupByName | lib/knife-instance/zestknife.rb:38 | one region's grouping has a key exactly for the Name tags some server carries, each mapped to exactly those servers in order |
| Registry.LastGroup | lib/knife-instance/zestknife.rb:35-41 | reference definition of `find_ec2`'s right-biased merge (properties in Registry.LastGroupFound and Registry.LastGroupIsLatestRegion) |
| Registry.FindEc2 | lib/knife-instance/zestknife.rb:35-41 | merging the regions' groupings one after another and looking the name up gives the group of the last region that has one |
| Registry.LastGroupFound | lib/knife-instance/zestknife.rb:35-41 | every server `find_ec2` returns carries the name; the result is empty exactly when no region has such a server |
| Registry.LastGroupIsLatestRegion | lib/knife-instance/zestknife.rb:35-41 | groups are replaced, not unioned: the result is exactly the group of the last region holding the name |
| Registry.Fqdn | lib/knife-instance/zestknife.rb:80-83 | `""` exactly for a nil or empty name; otherwise the name, one dot, and the domain |
| Registry.EnsureDot | lib/knife-instance/zestknife.rb:49 | the result ends in a dot, extends the name by at most that dot, and leaves a dotted name unchanged |
| Registry.EnsureDotIdempotent | lib/knife-instance/zestknife.rb:49 | the dot is never doubled: normalising twice is normalising once |
| Registry.DetectZone | lib/knife-instance/zestknife.rb:54-63 | reference definition of `zone`'s lookup: the first region's detected zone (properties in Registry.DetectZoneSpec) |
| Registry.DetectZoneSpec | lib/knife-instance/zestknife.rb:54-63 | the zone found has the wanted domain in lower case and comes from some region; none is found exactly when no region has one |
| Registry.DetectInRegionSpec | lib/knife-instance/zestknife.rb:57 | `detect` in one region finds a zone with the wanted domain, or none exactly when no zone there has it |
| Registry.R53Query | lib/knife-instance/zestknife.rb:43-49 | a name with a zone of its own is searched for in that zone with a trailing dot; otherwise `fqdn(name)` with a trailing dot is searched for in the default zone; the query fails exactly when neither zone exists, and then with "Could not find DNS zone" |
| Registry.FindR53 | lib/knife-instance/zestknife.rb:43-52 | reference definition of `find_r53`: the query's error, or the records `R53Records` picks in the queried zone (properties in Registry.FindR53Records) |
| Registry.R53Records | lib/knife-instance/zestknife.rb:50-51 | the exact-name records when there are any, otherwise at most the one record `get` returns, and none when `get` returns nil |
| Registry.R53QueryBareName | spec/lib/knife-instance/zestknife_spec.rb:14-17 | with domain `internal.com.`, the bare name `d999` is searched for as `d999.internal.com.` in the default zone |
| Registry.FindR53Records | lib/knife-instance/zestknife.rb:50-51 | every exact-name record is returned, exact matches carry the normalised name, and the fallback returns at most one record |
| Registry.CheckServices | lib/knife-instance/zestknife.rb:114-119 | raises exactly when a probe raises, with the node's error before the client's before Route53's; otherwise holds every conflict of the four probes and nothing else, as many as they report together |
| Registry.CheckServicesConflicts | lib/knife-instance/zestknife.rb:114-119 | the conflicts reported are the node's, then the API client's, then EC2's, then Route53's, concatenated in that order, and so as a multiset the sum of the four |
| Registry.CheckServicesFree | lib/knife-instance/zestknife.rb:114-119 | a name is free exactly when both loads answer 4xx, no server in any region carries it, and Route53 has no record of it |
| Hostname.First | lib/knife-instance/zestknife.rb:125-131 | `first` is defined for strings (through a `String#first` extension) and arrays only; for a string it is its first character, or `""` for `""` |
| Hostname.ThreeDigits | lib/knife-instance/zestknife.rb:133-135 | `sprintf("%03d", n)` is three decimal digits |
| Hostname.ThreeDigitsRoundTrip | lib/knife-instance/zestknife.rb:133-135 | the three digits read back as the number drawn |
| Hostname.RandomHostname | lib/knife-instance/zestknife.rb:121-123 | reference definition of `random_hostname` for one draw (properties in Hostname.RandomHostnameShape) |
| Hostname.RandomHostnameShape | lib/knife-instance/zestknife.rb:121-135 | a candidate exists exactly when both prefixes exist, and is the two prefixes followed by exactly three digits |
| Hostname.ExampleProductionShape | spec/knife/zestknife_spec.rb:9-16 | for `example.com` and `production` every candidate matches `^ep\d{3}$` |
| Hostname.Allocate | lib/knife-instance/zestknife.rb:89-102 | reference definition of the five tries of `generate_hostname` from a given try on (properties in Hostname.AllocateFound and Hostname.AllocateExhausted) |
| Hostname.AllocateFound | lib/knife-instance/zestknife.rb:89-102 | a returned name is the candidate of some try, is free in every registry, and every earlier candidate was taken |
| Hostname.AllocateExhausted | lib/knife-instance/zestknife.rb:89-102 | nil comes back exactly when all five candidates are taken |
| Hostname.AllocatedExampleProduction | spec/lib/knife-instance/zestknife_spec.rb:166-173 | a name allocated for `example.com` and `production` matches `^ep\d{3}$` |
| Hostname.ExistsMessages | lib/knife-instance/zestknife.rb:106-108 | one "already exists" error per conflict, in the conflicts' order |
| Hostname.HostnameErrors | lib/knife-instance/zestknife.rb:104-112 | reference definition of the errors `validate_hostname` adds, or its raise (properties in Hostname.HostnameBlank and Hostname.HostnameErrorsContent) |
| Hostname.HostnameBlank | lib/knife-instance/zestknife.rb:105 | a nil or empty hostname gives exactly the one "can't be blank" error and no check |
| Hostname.HostnameErrorsContent | lib/knife-instance/zestknife.rb:104-112 | a non-blank name gets first one "already exists" error per conflict in the check's order, then the prefix error exactly when the prefix predicate fails, then the digits error exactly when the digits predicate fails, and nothing else; none exactly when it is free and both predicates hold |
| Hostname.MissingKeyErrors | lib/knife-instance/zestknife.rb:166-170 | reference definition of the missing-key errors of `validate!` (properties in Hostname.MissingKeyErrorsSpec and Hostname.MissingKeyErrorsMembers) |
| Hostname.MissingKeyErrorsSpec | lib/knife-instance/zestknife.rb:165-170 | exactly one error per key missing from both configs, in the order of the keys, and nothing else: the errors name, one by one, the missing keys' positions in increasing order |
| Hostname.MissingKeyErrorsMembers | lib/knife-instance/zestknife.rb:165-170 | every missing key is named, every error names a missing key, at most one error per key; no errors exactly when no key is missing |
| Hostname.ValidatorErrorsSpec | lib/knife-instance/zestknife.rb:172-174 | the validators complain only about the color, and do so exactly when `cluster_tag` is validated and no color is set |
| Hostname.ValidatorErrors | lib/knife-instance/zestknife.rb:172-174 | reference definition of the validators' errors (properties in Hostname.ValidatorErrorsSpec) |
| Hostname.ValidateErrors | lib/knife-instance/zestknife.rb:165-174 | reference definition of all the errors `validate!` adds: missing keys, then validators (tied to ZestKnife.Knife.Validate) |
| ZestKnife.Command.constructor | lib/knife-instance/zestknife.rb:146 | a command starts with no options and no validated options |
| ZestKnife.Command.WithOpts | lib/knife-instance/zestknife.rb:137-144 | raises, naming the unknown arguments, unless every argument is a key of `OPTS`; otherwise adds exactly the arguments as options |
| ZestKnife.Command.Validates | lib/knife-instance/zestknife.rb:153-157 | raises unless every argument has a validator; otherwise appends the arguments to the validated options |
| ZestKnife.Command.WithValidatedOpts | lib/knife-instance/zestknife.rb:137-157 | succeeds exactly when every argument is both an option and validated, and then declares and validates exactly the arguments; an unknown option raises the `with_opts` message with nothing changed; an option without validator raises the `validates` message with the options already declared and the validated list unchanged |
| ZestKnife.Knife.constructor | lib/knife-instance/zestknife.rb:4-6 | a command starts with an empty error list and no zone memo |
| ZestKnife.Knife.HasErrors | lib/knife-instance/zestknife.rb:8-10 | `errors?` is true exactly when the list is non-empty |
| ZestKnife.Knife.SetupConfig | lib/knife-instance/zestknife.rb:159-163 | a listed key unset in the knife config takes its environment variable when there is one; every other entry is unchanged |
| ZestKnife.Knife.DefaultZone | lib/knife-instance/zestknife.rb:54-63 | returns the detected zone or raises "Could not find DNS zone"; the memo, once set, is never replaced |
| ZestKnife.Knife.FindR53 | lib/knife-instance/zestknife.rb:43-52 | returns exactly what the `find_r53` specification gives; the memo keeps its value |
| ZestKnife.Knife.CheckServices | lib/knife-instance/zestknife.rb:114-119 | returns exactly what `check_services` specifies for the name |
| ZestKnife.Knife.Attempt | lib/knife-instance/zestknife.rb:93-97 | one try either decides the outcome of allocation or leaves it to the next try |
| ZestKnife.Knife.GenerateHostname | lib/knife-instance/zestknife.rb:89-102 | the loop returns the outcome of allocation, and adds one "Unable to find available hostname in 5 tries" error exactly when it returns nil |
| ZestKnife.Knife.ReportExisting | lib/knife-instance/zestknife.rb:106-108 | appends one "already exists" error per conflict, in order |
| ZestKnife.Knife.ValidateHostname | lib/knife-instance/zestknife.rb:104-112 | appends exactly the hostname errors; raises, with the errors untouched, when the check raises |
| ZestKnife.Knife.ValidateColorOption | lib/knife-instance/zestknife.rb:190-194 | appends the cluster_tag error exactly when no color is set |
| ZestKnife.Knife.RunValidator | lib/knife-instance/zestknife.rb:181-197 | only the `cluster_tag` validator can add an error |
| ZestKnife.Knife.Validate | lib/knife-instance/zestknife.rb:165-179 | appends the missing-key errors and then the validators' errors, keeping earlier ones, and exits exactly when the list is non-empty |
| ZestKnife.GeneratedNameIsFree | spec/lib/knife-instance/zestknife_spec.rb:169-173 | a generated name passes `validate_hostname` with no error exactly when both shape predicates accept it |
| Json.Render | lib/knife-instance/bootstrap_generator.rb:27 | reference definition of `to_json`'s compact output (properties in Json.ParseRender) |
| Json.Parse | spec/lib/knife-instance/bootstrap_generator_spec.rb:25 | reference definition of `JSON.parse` for the values the document holds (properties in Json.ParseRender and Json.ParseGenerate) |
| Json.EscapeChar | lib/knife-instance/bootstrap_generator.rb:27 | quote, backslash and control characters are escaped; every other character is kept as it is |
| Json.ParseStringEscape | lib/knife-instance/bootstrap_generator.rb:27 | reading an escaped string gives back the string and the text after its closing quote |
| Json.Lookup | spec/lib/knife-instance/bootstrap_generator_spec.rb:25-28 | `hash[key]` finds the value of a member with that key, and nil exactly when there is none |
| Json.ParseRender | lib/knife-instance/bootstrap_generator.rb:27 | reading a generated value gives back the value and the text after it |
| Json.ParseGenerate | spec/lib/knife-instance/bootstrap_generator_spec.rb:25 | `JSON.parse` of generated text is the original value |
| Bootstrap.New | lib/knife-instance/bootstrap_generator.rb:6-18 | the four arguments are kept as given; each attribute is `attr`'s entry, nil when absent |
| Bootstrap.FromToJson | lib/knife-instance/bootstrap_generator.rb:20-28 | an attribute value survives serialisation and parsing |
| Bootstrap.FirstBoot | lib/knife-instance/bootstrap_generator.rb:20-28 | reference definition of `first_boot` (properties in Bootstrap.FirstBootReadBack) |
| Bootstrap.DocumentFields | lib/knife-instance/bootstrap_generator.rb:20-28 | run list, assigned hostname, base domain and domain sit under their keys |
| Bootstrap.DocumentColor | lib/knife-instance/bootstrap_generator.rb:23 | the color sits under `rails` / `cluster` / `color` |
| Bootstrap.FirstBootReadBack | spec/lib/knife-instance/bootstrap_generator_spec.rb:24-46 | parsing `first_boot` gives the document, and each field reads back as the value the constructor received |
| Bootstrap.ValidationKey | lib/knife-instance/bootstrap_generator.rb:30-32 | the contents of the validation key file; raises exactly when it is missing |
| Bootstrap.EncryptedDataBagSecret | lib/knife-instance/bootstrap_generator.rb:34-36 | the contents of the secret file; raises exactly when it is missing |
| Bootstrap.ReadersTouchOwnFileOnly | lib/knife-instance/bootstrap_generator.rb:30-36 | each reader depends only on its own file |
| Bootstrap.ConfigLines | lib/knife-instance/bootstrap_generator.rb:43-56 | `config_content` has ten lines; their content is stated by Bootstrap.ConfigContentSettings and Bootstrap.ConfigFixedPart |
| Bootstrap.ConfigContent | lib/knife-instance/bootstrap_generator.rb:43-56 | reference definition of `config_content`, the ten lines joined by line breaks (properties in Bootstrap.ConfigContentSettings) |
| Bootstrap.SettingRoundTrip | lib/knife-instance/bootstrap_generator.rb:52-54 | a setting line yields back exactly the quoted value it was written with |
| Bootstrap.ConfigContentSettings | spec/lib/knife-instance/bootstrap_generator_spec.rb:72-89 | the text splits back into the ten lines, whose `chef_server_url`, `validation_client_name` and `node_name` settings are exactly the URL, the client name and the hostname |
| Bootstrap.ConfigFixedPart | lib/knife-instance/bootstrap_generator.rb:43-56 | the first seven lines are fixed; the text depends on nothing but the three settings |
| Bootstrap.StartChef | lib/knife-instance/bootstrap_generator.rb:58-60 | reference definition of `start_chef` as written (properties in Bootstrap.StartChefLacksPath) |
| Bootstrap.StartChefAbsolute | spec/lib/knife-instance/bootstrap_generator_spec.rb:91-96 | reference definition of the corrected start command (properties in Bootstrap.StartChefAbsoluteSpec) |
| Bootstrap.StartChefLacksPath | lib/knife-instance/bootstrap_generator.rb:58-60 | the command as written starts with `chef-client`, so it is never the `/usr/bin/` line the tests expect |
| Bootstrap.StartChefAbsoluteSpec | spec/lib/knife-instance/bootstrap_generator_spec.rb:91-96 | the corrected command is the written one with `/usr/bin/` in front, starts with the client's path and ends with the environment |
| Bootstrap.StartChefExample | spec/lib/knife-instance/bootstrap_generator_spec.rb:91-96 | for the example attributes the corrected command is exactly the expected line |
| RunList.DropTrailingEmpty | lib/chef/knife/instance_create.rb:70 | `split` drops exactly the trailing empty strings: a prefix of the pieces whose last element is non-empty |
| RunList.RunListOption | lib/chef/knife/instance_create.rb:65-70 | no argument gives `["role[base]"]`; an argument gives its split |
| RunList.Split | lib/chef/knife/instance_create.rb:70 | reference definition of `split(/[\s,]+/)` (properties in RunList.SplitShape, RunList.SplitKeepsContent and RunList.SplitJoin) |
| RunList.SplitShape | lib/chef/knife/instance_create.rb:70 | no element contains a separator; all but the first are non-empty, and the first is empty only when the text starts with a separator |
| RunList.SplitKeepsContent | lib/chef/knife/instance_create.rb:70 | the elements, concatenated, are exactly the non-separator characters of the text |
| RunList.SplitJoin | lib/chef/knife/instance_create.rb:68-70 | names joined by commas or whitespace split back into exactly the names |
| CreateCommand.Defaults | lib/chef/knife/instance_create.rb:143-158 | the twelve config entries `new_with_defaults` writes, the eight copied from the options hash nil where it has none |
| CreateCommand.PreflightErrors | lib/chef/knife/instance_create.rb:197-204 | the secret-file error exactly when the file is missing, placed first; the image error exactly when no image is found, placed last; nothing else; a non-string secret path raises |
| CreateCommand.DeclareCommand | lib/chef/knife/instance_create.rb:19-20 | the two declaration calls succeed and leave exactly the seven options declared through `with_opts`/`with_validated_opts` and the four validated in order (the other options, declared directly with `option`, are not modelled) |
| CreateCommand.DeclaredOptionsKnown | lib/chef/knife/instance_create.rb:19-20 | every declared option is a key of `OPTS`, and every validated one has a validator |
| CreateCommand.InstanceCreate.constructor | lib/chef/knife/instance_create.rb:17 | a new command has no hostname |
| CreateCommand.InstanceCreate.Configure | lib/chef/knife/instance_create.rb:83-87 | a configured string hostname is used as is, with no registry probe and no error; otherwise the hostname is the generated one with the base domain already set; when generation raises, the color and the region keep their old values |
| CreateCommand.InstanceCreate.VpcMode | lib/chef/knife/instance_create.rb:181-183 | reference definition of `vpc_mode?`, a truthy `subnet_id` (used by CreateCommand.InstanceCreate.CreateServerDef) |
| CreateCommand.InstanceCreate.CreateServerDef | lib/chef/knife/instance_create.rb:160-183 | `associate_public_ip` is present, and true, exactly in VPC mode; the tags are exactly Name and environment; the other entries are copied from the config; the user data is empty when `without_user_data` is set |
| CreateCommand.InstanceCreate.Validate | lib/chef/knife/instance_create.rb:197-210 | appends the secret and image errors, then the hostname errors, then the base checks with the five required keys; exits exactly when the list is non-empty; a non-string secret path raises with no error added, and a raising hostname check keeps only the secret and image errors |
| CreateCommand.InstanceCreate.NewWithDefaults | lib/chef/knife/instance_create.rb:143-158 | the config is the old one with the twelve defaults written over it |

## Left out

- The Fog and AWS plumbing of `run` is not modelled: `servers.create`, `wait_for`, the output lines and the DNS record creation (lib/chef/knife/instance_create.rb:91-140). It is calls into an unseen library and console output. `lib/knife-instance/aws.rb` is not part of this model.
- `zone_from_name` (lib/knife-instance/zestknife.rb:65-78) is a function of the registries. Its unescaped regular-expression prefix match is not modelled.
- `rand`, `srand`, `File.exists?`, `File.read`, `ENV` and the AMI lookup become parameters. `ami`'s memo is a single boolean parameter.
- `generate` (lib/knife-instance/bootstrap_generator.rb:38-41) renders an ERB template that is not in the repository. `CreateServerDef` takes the rendered user data as a parameter.
- `get_user_data` (lib/chef/knife/instance_create.rb:212-215) passes ten arguments to a constructor that takes four or five. It is not modelled.
- Option metadata in `OPTS` and the option declarations is not modelled: descriptions, short and long flags, and defaults built from `ENV` and `File.expand_path`. Only the key sets are kept.
- The `security_group_ids` option's splitting proc is not modelled.
- The JSON model writes and reads only what the first-boot document can hold: null, booleans, strings, arrays and objects. It has no numbers and no whitespace between tokens. Characters outside the Basic Multilingual Plane, and their surrogate-pair escapes, are not modelled.
- Registry.Downcase: lowers ASCII letters only, not the full Unicode case mapping of `String#downcase`.
- Basics.ToS: an interpolated array is shown in its `inspect` form without escaping the quotes or backslashes inside its elements. Only strings and nil reach it in the tests.
- CreateCommand.InstanceCreate.Configure: a configured hostname that is neither a string nor nil/false is not modelled. The hostname field holds only strings.
- The AWS calls behind the EC2 listing, the Route53 record lookups and the zone listing (lib/knife-instance/zestknife.rb:20-24, 35-41, 50-51) are taken to succeed. In the source an exception from any of them propagates through `check_services`, an EC2 one before Route53's; Registry.CheckServices raises only for the node, client and zone-lookup errors.
- CreateCommand.InstanceCreate.CreateServerDef: takes the rendered user data as a parameter standing for the intended bootstrap call. As written, `get_user_data` passes ten arguments to a five-parameter constructor, so `create_server_def` raises `ArgumentError` whenever `without_user_data` is unset; the model does not reproduce that raise.
- `validate!`'s `ui.error` output and `exit 1` become the returned `exits` flag.
- `Chef::Config[:knife]` and the per-command `config` are two maps on the command object. Chef's merging of defaults into them is not modelled.
- `find_ec2` does not collect every region's servers for a name. `Hash#merge` replaces a name's group with a later region's group. The model follows the code (see Registry.LastGroupIsLatestRegion).
- Hostname.First: assumes `String#first` from an extension such as ActiveSupport. Core Ruby strings have no `first`, and without that extension `domain_prefix` and `environment_prefix` raise `NoMethodError`, which the model does not capture.
- The default key lists of `setup_config` and `validate!` (the two AWS credential keys) are not modelled; callers of ZestKnife.Knife.SetupConfig and ZestKnife.Knife.Validate pass their keys explicitly.
- `domain` is the empty string in the base class (lib/knife-instance/zestknife.rb:85-87) and is stubbed in the tests, so the model takes it as a field.

## Findings

| source | as written | input that shows it | evidently intended | confidence | as-written member | corrected member |
|---|---|---|---|---|---|---|
| lib/knife-instance/bootstrap_generator.rb:58-60 | `start_chef` is `"chef-client -j /etc/chef/first-boot.json -E <env>"`, with the bare command name (Bootstrap.StartChef) | any generator, for instance the test's with environment `this is an environment` | `"/usr/bin/chef-client -j /etc/chef/first-boot.json -E <env>"` (Bootstrap.StartChefAbsolute), as spec/lib/knife-instance/bootstrap_generator_spec.rb:95 expects | low; not executed (the test, not the code, may be the stale side) | Bootstrap.StartChefLacksPath | Bootstrap.StartChefAbsoluteSpec |
