/**
  `Zest::BootstrapGenerator`: the first-boot JSON document, the chef client
  configuration and the start command handed to a new instance, and the two
  secret files read from disk. Every field is set by the constructor and never
  changed, so each output is a function of the constructor arguments (and, for
  the two readers, of the file contents).
*/
module Bootstrap {
  import opened Basics
  import opened Json

  /** The generator's instance variables. */
  datatype Generator = Generator(
    validationKeyFile: string,
    validationClientName: string,
    chefServerUrl: string,
    encryptedDatabagSecretFile: string,
    environment: Value,
    runList: Value,
    hostname: Value,
    color: Value,
    baseDomain: Value,
    domain: Value)

  /** `BootstrapGenerator.new(validation_key_file, validation_client_name,
      chef_server_url, encrypted_databag_secret_file, attr)`: the four
      arguments are kept as given, each attribute is looked up in `attr`
      (nil when absent). */
  function New(validationKeyFile: string, validationClientName: string, chefServerUrl: string,
               encryptedDatabagSecretFile: string, attr: map<string, Value>): (g: Generator)
    ensures g.validationKeyFile == validationKeyFile && g.validationClientName == validationClientName
    ensures g.chefServerUrl == chefServerUrl && g.encryptedDatabagSecretFile == encryptedDatabagSecretFile
    ensures forall k :: k in AttrKeys ==> Attr(g, k) == Get(attr, k)
    ensures forall k :: k in AttrKeys && k !in attr ==> Attr(g, k).Nil?
  {
    Generator(validationKeyFile, validationClientName, chefServerUrl, encryptedDatabagSecretFile,
      Get(attr, "environment"), Get(attr, "run_list"), Get(attr, "hostname"),
      Get(attr, "color"), Get(attr, "base_domain"), Get(attr, "domain"))
  }

  /** The attribute keys the constructor reads. */
  const AttrKeys: set<string> := {"environment", "run_list", "hostname", "color", "base_domain", "domain"}

  /** The instance variable each attribute key fills. */
  function Attr(g: Generator, k: string): Value
  {
    if k == "environment" then g.environment
    else if k == "run_list" then g.runList
    else if k == "hostname" then g.hostname
    else if k == "color" then g.color
    else if k == "base_domain" then g.baseDomain
    else if k == "domain" then g.domain
    else Nil
  }

  /** `to_json` of an attribute value. */
  function ToJson(v: Value): Json
  {
    match v
    case Nil => JNull
    case Flag(b) => JBool(b)
    case Str(s) => JStr(s)
    case List(items) => JArr(seq(|items|, i requires 0 <= i < |items| => JStr(items[i])))
  }

  /** The Ruby value `JSON.parse` builds for a JSON value, when it is one an attribute can hold. */
  function FromJson(j: Json): Option<Value>
  {
    match j
    case JNull => Some(Nil)
    case JBool(b) => Some(Flag(b))
    case JStr(s) => Some(Str(s))
    case JArr(items) =>
      if forall i :: 0 <= i < |items| ==> items[i].JStr?
      then Some(List(seq(|items|, i requires 0 <= i < |items| && items[i].JStr? => items[i].s)))
      else None
    case JObj(_) => None
  }

  lemma FromToJson(v: Value)
    ensures FromJson(ToJson(v)) == Some(v)
  {
    if v.List? {
      var items := ToJson(v).items;
      assert seq(|items|, i requires 0 <= i < |items| && items[i].JStr? => items[i].s) == v.items;
    }
  }

  /** The hash `first_boot` serialises, members in the order the literal lists them. */
  function FirstBootDocument(g: Generator): Json
  {
    JObj([
      Member("run_list", ToJson(g.runList)),
      Member("assigned_hostname", ToJson(g.hostname)),
      Member("rails", JObj([Member("cluster", JObj([Member("color", ToJson(g.color))]))])),
      Member("base_domain", ToJson(g.baseDomain)),
      Member("domain", ToJson(g.domain))])
  }

  /** `first_boot`: the JSON text of the first-boot document. */
  function FirstBoot(g: Generator): string
  {
    Render(FirstBootDocument(g))
  }

  /** `JSON.parse(text)` followed by `[k1][k2]...`, converted back to a Ruby value. */
  function Read(text: string, path: seq<string>): Option<Value>
  {
    match Parse(text)
    case None => None
    case Some(doc) =>
      match Follow(doc, path)
      case None => None
      case Some(j) => FromJson(j)
  }

  function Follow(j: Json, path: seq<string>): Option<Json>
  {
    if path == [] then Some(j)
    else
      match Lookup(j, path[0])
      case None => None
      case Some(inner) => Follow(inner, path[1..])
  }

  /** The member at `i` is the one `hash[key]` finds when no later member has that key. */
  lemma {:induction false} LastValueAt(ms: seq<Member>, i: nat, key: string)
    requires i < |ms| && ms[i].key == key
    requires forall j :: i < j < |ms| ==> ms[j].key != key
    ensures LastValue(ms, key) == Some(ms[i].value)
  {
    if i < |ms| - 1 {
      var init := ms[..|ms| - 1];
      assert init[i] == ms[i];
      assert forall j :: i < j < |init| ==> init[j] == ms[j];
      LastValueAt(init, i, key);
    }
  }

  /** `hash[key]` on an object finds the value of the member at `i` when no later member has that key. */
  lemma FollowOne(j: Json, i: nat, key: string)
    requires j.JObj? && i < |j.members| && j.members[i].key == key
    requires forall k :: i < k < |j.members| ==> j.members[k].key != key
    ensures Follow(j, [key]) == Some(j.members[i].value)
  {
    LastValueAt(j.members, i, key);
    assert [key][1..] == [];
  }

  /** Each top-level field of the first-boot document is where `hash[key]` finds it. */
  lemma DocumentFields(g: Generator)
    ensures Follow(FirstBootDocument(g), ["run_list"]) == Some(ToJson(g.runList))
    ensures Follow(FirstBootDocument(g), ["assigned_hostname"]) == Some(ToJson(g.hostname))
    ensures Follow(FirstBootDocument(g), ["base_domain"]) == Some(ToJson(g.baseDomain))
    ensures Follow(FirstBootDocument(g), ["domain"]) == Some(ToJson(g.domain))
  {
    var doc := FirstBootDocument(g);
    FollowOne(doc, 0, "run_list");
    FollowOne(doc, 1, "assigned_hostname");
    FollowOne(doc, 3, "base_domain");
    FollowOne(doc, 4, "domain");
  }

  /** The cluster color sits at `["rails"]["cluster"]["color"]`. */
  lemma DocumentColor(g: Generator)
    ensures Follow(FirstBootDocument(g), ["rails", "cluster", "color"]) == Some(ToJson(g.color))
  {
    var doc := FirstBootDocument(g);
    var rails := doc.members[2].value;
    var cluster := rails.members[0].value;
    FollowOne(cluster, 0, "color");
    LastValueAt(rails.members, 0, "cluster");
    assert ["cluster", "color"][1..] == ["color"];
    assert Follow(rails, ["cluster", "color"]) == Some(ToJson(g.color));
    LastValueAt(doc.members, 2, "rails");
    assert ["rails", "cluster", "color"][1..] == ["cluster", "color"];
  }

  /** Reading a path from a text that parses to `doc` reads it from `doc`. */
  lemma ReadParsed(text: string, doc: Json, path: seq<string>, v: Value)
    requires Parse(text) == Some(doc)
    requires exists j :: Follow(doc, path) == Some(j) && FromJson(j) == Some(v)
    ensures Read(text, path) == Some(v)
  {
  }

  /** Parsing `first_boot` gives back the run list, the assigned hostname, the
      cluster color under `rails` / `cluster`, the base domain and the domain
      exactly as the constructor received them. */
  lemma FirstBootReadBack(g: Generator)
    ensures Parse(FirstBoot(g)) == Some(FirstBootDocument(g))
    ensures Read(FirstBoot(g), ["run_list"]) == Some(g.runList)
    ensures Read(FirstBoot(g), ["assigned_hostname"]) == Some(g.hostname)
    ensures Read(FirstBoot(g), ["rails", "cluster", "color"]) == Some(g.color)
    ensures Read(FirstBoot(g), ["base_domain"]) == Some(g.baseDomain)
    ensures Read(FirstBoot(g), ["domain"]) == Some(g.domain)
  {
    var doc := FirstBootDocument(g);
    var text := FirstBoot(g);
    ParseGenerate(doc);
    DocumentFields(g);
    DocumentColor(g);
    FromToJson(g.runList);
    FromToJson(g.hostname);
    FromToJson(g.color);
    FromToJson(g.baseDomain);
    FromToJson(g.domain);
    ReadParsed(text, doc, ["run_list"], g.runList);
    ReadParsed(text, doc, ["assigned_hostname"], g.hostname);
    ReadParsed(text, doc, ["rails", "cluster", "color"], g.color);
    ReadParsed(text, doc, ["base_domain"], g.baseDomain);
    ReadParsed(text, doc, ["domain"], g.domain);
  }

  /** `validation_key`: the contents of the validation key file; reading a
      missing file raises. */
  function ValidationKey(g: Generator, files: map<string, string>): (r: Result<string>)
    ensures r.Ok? <==> g.validationKeyFile in files
    ensures r.Ok? ==> r.value == files[g.validationKeyFile]
  {
    ReadFile(files, g.validationKeyFile)
  }

  /** `encrypted_data_bag_secret`: the contents of the data bag secret file. */
  function EncryptedDataBagSecret(g: Generator, files: map<string, string>): (r: Result<string>)
    ensures r.Ok? <==> g.encryptedDatabagSecretFile in files
    ensures r.Ok? ==> r.value == files[g.encryptedDatabagSecretFile]
  {
    ReadFile(files, g.encryptedDatabagSecretFile)
  }

  /** `File.read(path)` over a file system given as a map from path to contents. */
  function ReadFile(files: map<string, string>, path: string): Result<string>
  {
    if path in files then Ok(files[path]) else Raised("No such file or directory - " + path)
  }

  /** Each reader depends on its own file only: file systems that agree on the
      validation key path give the same key, whatever the secret file holds,
      and the other way round. */
  lemma ReadersTouchOwnFileOnly(g: Generator, files1: map<string, string>, files2: map<string, string>)
    ensures SameFile(files1, files2, g.validationKeyFile) ==> ValidationKey(g, files1) == ValidationKey(g, files2)
    ensures SameFile(files1, files2, g.encryptedDatabagSecretFile) ==>
      EncryptedDataBagSecret(g, files1) == EncryptedDataBagSecret(g, files2)
  {
  }

  predicate SameFile(files1: map<string, string>, files2: map<string, string>, path: string)
  {
    (path in files1 <==> path in files2) && (path in files1 ==> files1[path] == files2[path])
  }

  /** The ten lines of `config_content`, without their line breaks; the heredoc
      keeps the two-space indentation of its body, and every setting's value
      starts in the same column. */
  function ConfigLines(g: Generator): (r: seq<string>)
    ensures |r| == 10
  {
    FixedLines + [
      Setting("chef_server_url", 8, g.chefServerUrl),
      Setting("validation_client_name", 1, g.validationClientName),
      Setting("node_name", 14, ToS(g.hostname)) ]
  }

  /** The seven lines that are the same for every generator. */
  const FixedLines: seq<string> := [
    "  require 'syslog-logger'",
    "  Logger::Syslog.class_eval do",
    "    attr_accessor :sync, :formatter",
    "  end",
    "",
    Entry("log_level", 14, ":info"),
    Entry("log_location", 11, "Logger::Syslog.new(\"chef-client\")")]

  /** A configuration line: the key, `pad` spaces and the value. */
  function Entry(key: string, pad: nat, value: string): string
  {
    "  " + key + Spaces(pad) + value
  }

  /** A configuration line whose value is a string literal. */
  function Setting(key: string, pad: nat, value: string): string
  {
    Entry(key, pad, "\"" + value + "\"")
  }

  function Spaces(n: nat): (r: string)
    ensures |r| == n && forall i :: 0 <= i < n ==> r[i] == ' '
  {
    if n == 0 then "" else " " + Spaces(n - 1)
  }

  /** A text without line breaks. */
  predicate OneLine(s: string)
  {
    forall i :: 0 <= i < |s| ==> s[i] != '\n'
  }

  lemma OneLineConcat(a: string, b: string)
    requires OneLine(a) && OneLine(b)
    ensures OneLine(a + b)
  {
    forall i | 0 <= i < |a + b|
      ensures (a + b)[i] != '\n'
    {
      if i >= |a| {
        assert (a + b)[i] == b[i - |a|];
      }
    }
  }

  lemma EntryOneLine(key: string, pad: nat, value: string)
    requires OneLine(key) && OneLine(value)
    ensures OneLine(Entry(key, pad, value))
  {
    assert OneLine("  ");
    OneLineConcat("  ", key);
    OneLineConcat("  " + key, Spaces(pad));
    OneLineConcat("  " + key + Spaces(pad), value);
  }

  lemma SettingOneLine(key: string, pad: nat, value: string)
    requires OneLine(key) && OneLine(value)
    ensures OneLine(Setting(key, pad, value))
  {
    assert OneLine("\"");
    OneLineConcat("\"", value);
    OneLineConcat("\"" + value, "\"");
    EntryOneLine(key, pad, "\"" + value + "\"");
  }

  lemma FixedLinesOneLine()
    ensures forall i :: 0 <= i < |FixedLines| ==> OneLine(FixedLines[i])
  {
    assert OneLine(FixedLines[0]) && OneLine(FixedLines[1]) && OneLine(FixedLines[2]);
    assert OneLine(FixedLines[3]) && OneLine(FixedLines[4]);
    assert OneLine("log_level") && OneLine(":info");
    EntryOneLine("log_level", 14, ":info");
    assert OneLine("log_location") && OneLine("Logger::Syslog.new(\"chef-client\")");
    EntryOneLine("log_location", 11, "Logger::Syslog.new(\"chef-client\")");
  }

  /** `config_content`: every line followed by a line break. */
  function ConfigContent(g: Generator): string
  {
    Unlines(ConfigLines(g))
  }

  function Unlines(ls: seq<string>): string
  {
    if ls == [] then "" else ls[0] + "\n" + Unlines(ls[1..])
  }

  /** `text.lines.map(&:chomp)`: the lines of a text, a final line without a break included. */
  function Lines(t: string): seq<string>
    decreases |t|
  {
    if t == [] then []
    else
      var (line, rest) := TakeLine(t);
      [line] + Lines(rest)
  }

  /** The first line of a non-empty text, and the text after its line break. */
  function TakeLine(t: string): (r: (string, string))
    requires t != []
    ensures |r.1| < |t|
    ensures OneLine(r.0)
  {
    if t[0] == '\n' then ("", t[1..])
    else if |t| == 1 then (t, "")
    else
      var (line, rest) := TakeLine(t[1..]);
      ([t[0]] + line, rest)
  }

  lemma {:induction false} TakeLineOf(line: string, rest: string)
    requires OneLine(line)
    ensures TakeLine(line + "\n" + rest) == (line, rest)
  {
    var t := line + "\n" + rest;
    if line == [] {
      assert t == "\n" + rest;
    } else {
      assert t[0] == line[0] && t[1..] == line[1..] + "\n" + rest;
      TakeLineOf(line[1..], rest);
      assert [line[0]] + line[1..] == line;
    }
  }

  /** Splitting joined lines gives the lines back, when none holds a line break. */
  lemma {:induction false} LinesUnlines(ls: seq<string>)
    requires forall i :: 0 <= i < |ls| ==> OneLine(ls[i])
    ensures Lines(Unlines(ls)) == ls
  {
    if ls != [] {
      TakeLineOf(ls[0], Unlines(ls[1..]));
      LinesUnlines(ls[1..]);
      assert [ls[0]] + ls[1..] == ls;
    }
  }

  /** The value a configuration line sets for `key`: the text between the
      quotes after the key and at least one space. */
  function SettingValue(line: string, key: string): Option<string>
  {
    var head := "  " + key;
    if |line| > |head| && line[..|head|] == head && line[|head|] == ' ' then QuotedAfterSpaces(line[|head|..])
    else None
  }

  function QuotedAfterSpaces(t: string): Option<string>
  {
    if t == [] then None
    else if t[0] == ' ' then QuotedAfterSpaces(t[1..])
    else if t[0] == '"' && |t| >= 2 && t[|t| - 1] == '"' then Some(t[1..|t| - 1])
    else None
  }

  lemma {:induction false} QuotedAfterPad(pad: nat, value: string)
    ensures QuotedAfterSpaces(Spaces(pad) + "\"" + value + "\"") == Some(value)
  {
    var t := Spaces(pad) + "\"" + value + "\"";
    if pad == 0 {
      assert t == "\"" + value + "\"";
      assert t[1..|t| - 1] == value;
    } else {
      assert t[1..] == Spaces(pad - 1) + "\"" + value + "\"";
      QuotedAfterPad(pad - 1, value);
    }
  }

  /** A setting line sets its key to exactly the given value, whatever characters it holds. */
  lemma SettingRoundTrip(key: string, pad: nat, value: string)
    requires pad > 0
    ensures SettingValue(Setting(key, pad, value), key) == Some(value)
  {
    var line := Setting(key, pad, value);
    var head := "  " + key;
    assert line == head + (Spaces(pad) + "\"" + value + "\"");
    assert line[..|head|] == head;
    assert line[|head|..] == Spaces(pad) + "\"" + value + "\"";
    QuotedAfterPad(pad, value);
  }

  /** The chef client configuration: reading `config_content` line by line
      gives the ten lines, in which `chef_server_url`, `validation_client_name`
      and `node_name` are set to exactly the URL, the client name and the
      hostname. */
  lemma ConfigContentSettings(g: Generator)
    requires OneLine(g.chefServerUrl) && OneLine(g.validationClientName) && OneLine(ToS(g.hostname))
    ensures Lines(ConfigContent(g)) == ConfigLines(g)
    ensures SettingValue(ConfigLines(g)[7], "chef_server_url") == Some(g.chefServerUrl)
    ensures SettingValue(ConfigLines(g)[8], "validation_client_name") == Some(g.validationClientName)
    ensures SettingValue(ConfigLines(g)[9], "node_name") == Some(ToS(g.hostname))
  {
    var ls := ConfigLines(g);
    FixedLinesOneLine();
    assert OneLine("chef_server_url") && OneLine("validation_client_name") && OneLine("node_name");
    SettingOneLine("chef_server_url", 8, g.chefServerUrl);
    SettingOneLine("validation_client_name", 1, g.validationClientName);
    SettingOneLine("node_name", 14, ToS(g.hostname));
    LinesUnlines(ls);
    SettingRoundTrip("chef_server_url", 8, g.chefServerUrl);
    SettingRoundTrip("validation_client_name", 1, g.validationClientName);
    SettingRoundTrip("node_name", 14, ToS(g.hostname));
  }

  /** Only the three settings depend on the generator. */
  lemma ConfigFixedPart(g1: Generator, g2: Generator)
    ensures ConfigLines(g1)[..7] == ConfigLines(g2)[..7] == FixedLines
    ensures (g1.chefServerUrl == g2.chefServerUrl && g1.validationClientName == g2.validationClientName &&
             ToS(g1.hostname) == ToS(g2.hostname)) ==> ConfigContent(g1) == ConfigContent(g2)
  {
  }

  const ChefClient := "chef-client"
  const AbsoluteChefClient := "/usr/bin/chef-client"
  const ChefArguments := " -j /etc/chef/first-boot.json -E "

  /** `start_chef` as written: the bare command name, the first-boot document, then the environment. */
  function StartChef(g: Generator): string
  {
    ChefClient + ChefArguments + ToS(g.environment)
  }

  /** The start command with the absolute path of the chef client. */
  function StartChefAbsolute(g: Generator): string
  {
    AbsoluteChefClient + ChefArguments + ToS(g.environment)
  }

  /** The generator built from the example attributes of the bootstrap tests. */
  function ExampleGenerator(): Generator
  {
    New("/path/to/validation_key", "this is the validation client name", "this is the url for the chef server",
      "/path/to/encrypted_databag_secret_file",
      map["environment" := Str("this is an environment"), "run_list" := Str("this is a run list"),
          "hostname" := Str("this is a hostname"), "color" := Str("this is a color"),
          "base_domain" := Str("this is a base domain"), "domain" := Str("this is a domain")])
  }

  /** The start command the bootstrap tests expect for the example attributes. */
  const ExpectedStart := "/usr/bin/chef-client" + " -j /etc/chef/first-boot.json -E " + "this is an environment"

  lemma ExampleEnvironment()
    ensures ExampleGenerator().environment == Str("this is an environment")
  {
    var attr := map["environment" := Str("this is an environment"), "run_list" := Str("this is a run list"),
          "hostname" := Str("this is a hostname"), "color" := Str("this is a color"),
          "base_domain" := Str("this is a base domain"), "domain" := Str("this is a domain")];
    assert "environment" in attr && attr["environment"] == Str("this is an environment");
  }

  /** The command as written never starts with a slash, so for no generator is
      it the absolute-path command the tests expect. */
  lemma StartChefLacksPath(g: Generator)
    ensures StartChef(g)[0] == 'c'
    ensures StartChef(g) != ExpectedStart
  {
    assert ChefClient[0] == 'c';
    assert StartChef(g) == ChefClient + (ChefArguments + ToS(g.environment));
    assert AbsoluteChefClient[0] == '/';
    assert ExpectedStart[0] == '/';
  }

  /** The absolute-path command is the command as written with `/usr/bin/` in
      front; it starts with the path of the chef client and ends with the
      environment. */
  lemma StartChefAbsoluteSpec(g: Generator)
    ensures StartChefAbsolute(g) == "/usr/bin/" + StartChef(g)
    ensures var s := StartChefAbsolute(g);
      s[..|AbsoluteChefClient|] == AbsoluteChefClient && s[|s| - |ToS(g.environment)|..] == ToS(g.environment)
  {
    var env := ToS(g.environment);
    assert AbsoluteChefClient == "/usr/bin/" + ChefClient;
    var s := StartChefAbsolute(g);
    assert s == AbsoluteChefClient + (ChefArguments + env);
    assert s == (AbsoluteChefClient + ChefArguments) + env;
  }

  /** For the example attributes the absolute-path command is the line the tests expect. */
  lemma StartChefExample()
    ensures StartChefAbsolute(ExampleGenerator()) == ExpectedStart
  {
    ExampleEnvironment();
  }
}
