/**
  The hostname rules of ZestKnife as functions of their inputs: the random
  candidate `<domain initial><environment initial><three digits>`, the outcome
  of the bounded allocation loop, the errors of `validate_hostname`, and the
  errors `validate!` adds for missing keys and failing validators.
  The class in zestknife.dfy runs these rules step by step against its error list.
*/
module Hostname {
  import opened Basics
  import opened Registry

  /** How many candidates `generate_hostname` tries. */
  const Tries: nat := 5

  /** What `check_services` answers for a name (see Registry.CheckServices). */
  type Checker = string -> Result<seq<Entity>>

  /** A draw of `rand(1000)`. */
  type Draw = n: int | 0 <= n < 1000

  const Blank := "hostname can't be blank"
  const Exhausted := "Unable to find available hostname in 5 tries"
  const BadPrefix := "hostname does not start with a valid prefix"
  const NotDigits := "hostname is not valid prefix followed by numbers"
  const NoColor := "You must provide a cluster_tag with the -t option"

  // ---------------------------------------------------------------- random_hostname

  /** `v.first`: the first character of a string ("" for ""), the first element
      of an array (nil, shown as "", for []); anything else has no `first`. */
  function First(v: Value): (r: Result<string>)
    ensures r.Ok? <==> v.Str? || v.List?
    ensures v.Str? ==> r.value <= v.s && |r.value| == (if v.s == "" then 0 else 1)
  {
    match v
    case Str(s) => Ok(if s == "" then "" else s[..1])
    case List(items) => Ok(if items == [] then "" else items[0])
    case _ => Raised("undefined method `first'")
  }

  function Digit(d: int): (c: char)
    requires 0 <= d < 10
    ensures IsDigit(c)
  {
    ('0' as int + d) as char
  }

  function DigitValue(c: char): int
  {
    c as int - '0' as int
  }

  /** The number a string of decimal digits denotes. */
  function DigitsValue(s: string): int
  {
    if s == [] then 0 else 10 * DigitsValue(s[..|s| - 1]) + DigitValue(s[|s| - 1])
  }

  /** `sprintf("%03d", n)` */
  function ThreeDigits(n: Draw): (r: string)
    ensures |r| == 3 && AllDigits(r)
  {
    [Digit(n / 100), Digit(n / 10 % 10), Digit(n % 10)]
  }

  /** The zero-padded number reads back as the number drawn, so different draws give different candidates. */
  lemma ThreeDigitsRoundTrip(n: Draw)
    ensures DigitsValue(ThreeDigits(n)) == n
  {
    var r := ThreeDigits(n);
    assert r[..2][..1] == [r[0]];
    assert DigitsValue([r[0]]) == n / 100 by {
      assert [r[0]][..0] == [];
    }
    assert DigitsValue(r[..2]) == 10 * (n / 100) + n / 10 % 10;
    assert DigitsValue(r) == 10 * (10 * (n / 100) + n / 10 % 10) + n % 10;
  }

  /** `random_hostname env` */
  function RandomHostname(baseDomain: Value, env: Value, n: Draw): Result<string>
  {
    match First(baseDomain)
    case Raised(m) => Raised(m)
    case Ok(d) =>
      match First(env)
      case Raised(m) => Raised(m)
      case Ok(e) => Ok(d + e + ThreeDigits(n))
  }

  /** `h` is `prefix` followed by exactly three decimal digits. */
  predicate PrefixAndThreeDigits(h: string, prefix: string)
  {
    |h| == |prefix| + 3 && h[..|prefix|] == prefix && AllDigits(h[|prefix|..])
  }

  /** A candidate is the two initials and three digits; it exists exactly when
      both the base domain and the environment have a `first`. */
  lemma RandomHostnameShape(baseDomain: Value, env: Value, n: Draw)
    ensures RandomHostname(baseDomain, env, n).Ok? <==> First(baseDomain).Ok? && First(env).Ok?
    ensures RandomHostname(baseDomain, env, n).Ok? ==>
      PrefixAndThreeDigits(RandomHostname(baseDomain, env, n).value, First(baseDomain).value + First(env).value)
  {
    if RandomHostname(baseDomain, env, n).Ok? {
      var p := First(baseDomain).value + First(env).value;
      assert RandomHostname(baseDomain, env, n).value == p + ThreeDigits(n);
      assert (p + ThreeDigits(n))[|p|..] == ThreeDigits(n);
    }
  }

  /** For base domain "example.com" and environment "production" every candidate matches `^ep\d{3}$`. */
  lemma ExampleProductionShape(n: Draw)
    ensures RandomHostname(Str("example.com"), Str("production"), n).Ok?
    ensures var h := RandomHostname(Str("example.com"), Str("production"), n).value;
      |h| == 5 && h[0] == 'e' && h[1] == 'p' && forall i :: 2 <= i < 5 ==> IsDigit(h[i])
  {
    RandomHostnameShape(Str("example.com"), Str("production"), n);
    var h := RandomHostname(Str("example.com"), Str("production"), n).value;
    assert h[..2] == "ep";
    assert forall i :: 2 <= i < 5 ==> h[i] == h[2..][i - 2];
  }

  // ---------------------------------------------------------------- generate_hostname

  /** The candidate tried at attempt `k`. */
  function Candidate(baseDomain: Value, env: Value, draws: seq<Draw>, k: nat): Result<string>
    requires k < |draws|
  {
    RandomHostname(baseDomain, env, draws[k])
  }

  /** What the loop of `generate_hostname` yields from attempt `k` on: the first
      candidate whose check finds no conflict, nil after the last attempt, or
      the exception a candidate or a check raised. */
  function Allocate(check: Checker, baseDomain: Value, env: Value, draws: seq<Draw>, k: nat)
    : Result<Option<string>>
    requires |draws| == Tries && k <= Tries
    decreases Tries - k
  {
    if k == Tries then Ok(None)
    else
      match Candidate(baseDomain, env, draws, k)
      case Raised(m) => Raised(m)
      case Ok(name) =>
        match check(name)
        case Raised(m) => Raised(m)
        case Ok(conflicts) => if conflicts == [] then Ok(Some(name)) else Allocate(check, baseDomain, env, draws, k + 1)
  }

  /** Attempt `k` produced a candidate that some registry already holds. */
  predicate Taken(check: Checker, baseDomain: Value, env: Value, draws: seq<Draw>, k: nat)
    requires k < |draws|
  {
    var c := Candidate(baseDomain, env, draws, k);
    c.Ok? && check(c.value).Ok? && check(c.value).value != []
  }

  /** A hostname is returned only if it is the candidate of some attempt, that
      candidate is free in all four registries, and every earlier candidate was taken. */
  lemma {:induction false} AllocateFound(check: Checker, baseDomain: Value, env: Value, draws: seq<Draw>, k: nat)
    requires |draws| == Tries && k <= Tries
    requires Allocate(check, baseDomain, env, draws, k).Ok?
    requires Allocate(check, baseDomain, env, draws, k).value.Some?
    ensures var h := Allocate(check, baseDomain, env, draws, k).value.value;
      exists j :: k <= j < Tries && Candidate(baseDomain, env, draws, j) == Ok(h) &&
                  check(h) == Ok([]) &&
                  (forall i :: k <= i < j ==> Taken(check, baseDomain, env, draws, i))
    decreases Tries - k
  {
    var c := Candidate(baseDomain, env, draws, k);
    var h := Allocate(check, baseDomain, env, draws, k).value.value;
    if check(c.value) != Ok([]) {
      AllocateFound(check, baseDomain, env, draws, k + 1);
      var j :| k + 1 <= j < Tries && Candidate(baseDomain, env, draws, j) == Ok(h) &&
                check(h) == Ok([]) &&
                (forall i :: k + 1 <= i < j ==> Taken(check, baseDomain, env, draws, i));
      assert Taken(check, baseDomain, env, draws, k);
    }
  }

  /** Allocation gives up (nil, no exception) exactly when all five candidates are taken. */
  lemma {:induction false} AllocateExhausted(check: Checker, baseDomain: Value, env: Value, draws: seq<Draw>, k: nat)
    requires |draws| == Tries && k <= Tries
    ensures Allocate(check, baseDomain, env, draws, k) == Ok(None) <==>
      forall i :: k <= i < Tries ==> Taken(check, baseDomain, env, draws, i)
    decreases Tries - k
  {
    if k < Tries {
      AllocateExhausted(check, baseDomain, env, draws, k + 1);
      var c := Candidate(baseDomain, env, draws, k);
      if Taken(check, baseDomain, env, draws, k) {
        assert Allocate(check, baseDomain, env, draws, k) == Allocate(check, baseDomain, env, draws, k + 1);
        assert (forall i :: k <= i < Tries ==> Taken(check, baseDomain, env, draws, i)) <==>
               (forall i :: k + 1 <= i < Tries ==> Taken(check, baseDomain, env, draws, i));
      } else {
        assert Allocate(check, baseDomain, env, draws, k) != Ok(None);
      }
    }
  }

  /** An allocated hostname for "example.com" and "production" matches `^ep\d{3}$`. */
  lemma AllocatedExampleProduction(check: Checker, draws: seq<Draw>)
    requires |draws| == Tries
    requires Allocate(check, Str("example.com"), Str("production"), draws, 0).Ok?
    requires Allocate(check, Str("example.com"), Str("production"), draws, 0).value.Some?
    ensures var h := Allocate(check, Str("example.com"), Str("production"), draws, 0).value.value;
      |h| == 5 && h[0] == 'e' && h[1] == 'p' && forall i :: 2 <= i < 5 ==> IsDigit(h[i])
  {
    AllocateFound(check, Str("example.com"), Str("production"), draws, 0);
    var h := Allocate(check, Str("example.com"), Str("production"), draws, 0).value.value;
    var j :| 0 <= j < Tries && Candidate(Str("example.com"), Str("production"), draws, j) == Ok(h);
    ExampleProductionShape(draws[j]);
  }

  // ---------------------------------------------------------------- validate_hostname

  /** "<hostname> in <class> already exists. Delete first." */
  function ExistsMessage(hostname: string, e: Entity): string
  {
    hostname + " in " + e.cls + " already exists. Delete first."
  }

  /** One message per conflict, in the order the check reported them. */
  function ExistsMessages(hostname: string, conflicts: seq<Entity>): (r: seq<string>)
    ensures |r| == |conflicts|
    ensures forall i :: 0 <= i < |r| ==> r[i] == ExistsMessage(hostname, conflicts[i])
  {
    seq(|conflicts|, i requires 0 <= i < |conflicts| => ExistsMessage(hostname, conflicts[i]))
  }

  lemma ExistsMessagesSnoc(hostname: string, conflicts: seq<Entity>, i: nat)
    requires i < |conflicts|
    ensures ExistsMessages(hostname, conflicts[..i + 1]) ==
            ExistsMessages(hostname, conflicts[..i]) + [ExistsMessage(hostname, conflicts[i])]
  {
  }

  /** The errors `validate_hostname` appends: the blank error alone for nil or
      "", otherwise one per conflict, then the prefix error and the digits
      error when their predicates fail. A check that raises aborts. */
  function HostnameErrors(check: Checker, validPrefix: string -> bool, alphaDigits: string -> bool,
                          hostname: Option<string>): Result<seq<string>>
  {
    if hostname == None || hostname == Some("") then Ok([Blank])
    else
      var h := hostname.value;
      match check(h)
      case Raised(m) => Raised(m)
      case Ok(conflicts) =>
        Ok(ExistsMessages(h, conflicts)
           + (if validPrefix(h) then [] else [BadPrefix])
           + (if alphaDigits(h) then [] else [NotDigits]))
  }

  /** A nil or empty hostname gives exactly the blank error and no registry is asked. */
  lemma HostnameBlank(check: Checker, validPrefix: string -> bool, alphaDigits: string -> bool,
                      hostname: Option<string>)
    requires hostname == None || hostname == Some("")
    ensures HostnameErrors(check, validPrefix, alphaDigits, hostname) == Ok([Blank])
  {
  }

  /** No "already exists" message is one of the two shape errors: it ends in
      a full stop, and they do not. */
  lemma ExistsMessageNotShapeError(h: string, e: Entity)
    ensures ExistsMessage(h, e) != BadPrefix && ExistsMessage(h, e) != NotDigits
  {
    var m := ExistsMessage(h, e);
    assert m[|m| - 1] == '.';
    assert BadPrefix[|BadPrefix| - 1] == 'x';
    assert NotDigits[|NotDigits| - 1] == 's';
  }

  /** For a non-blank hostname: first one "already exists" error per conflict,
      in the check's order, then the prefix error exactly when the prefix
      predicate fails, then the digits error exactly when the digits predicate
      fails; none at all exactly when every registry is clear and both
      predicates hold. */
  lemma HostnameErrorsContent(check: Checker, validPrefix: string -> bool, alphaDigits: string -> bool,
                              h: string)
    requires h != ""
    requires check(h).Ok?
    ensures var conflicts := check(h).value;
      var errs := HostnameErrors(check, validPrefix, alphaDigits, Some(h));
      errs.Ok? &&
      |errs.value| == |conflicts| + (if validPrefix(h) then 0 else 1) + (if alphaDigits(h) then 0 else 1) &&
      errs.value[..|conflicts|] == ExistsMessages(h, conflicts) &&
      (BadPrefix in errs.value <==> !validPrefix(h)) &&
      (NotDigits in errs.value <==> !alphaDigits(h)) &&
      (!validPrefix(h) ==> errs.value[|conflicts|] == BadPrefix) &&
      (!alphaDigits(h) ==> errs.value[|errs.value| - 1] == NotDigits) &&
      (errs.value == [] <==> conflicts == [] && validPrefix(h) && alphaDigits(h)) &&
      (forall e :: e in conflicts ==> ExistsMessage(h, e) in errs.value)
  {
    var conflicts := check(h).value;
    var present := ExistsMessages(h, conflicts);
    var errs := HostnameErrors(check, validPrefix, alphaDigits, Some(h)).value;
    var tail := (if validPrefix(h) then [] else [BadPrefix]) + (if alphaDigits(h) then [] else [NotDigits]);
    assert errs == present + tail;
    assert errs[..|conflicts|] == present;
    forall i | 0 <= i < |present|
      ensures present[i] != BadPrefix && present[i] != NotDigits
    {
      ExistsMessageNotShapeError(h, conflicts[i]);
    }
    assert BadPrefix != NotDigits by {
      assert BadPrefix[9] == 'd' && NotDigits[9] == 'i';
    }
    assert BadPrefix in errs <==> BadPrefix in tail;
    assert NotDigits in errs <==> NotDigits in tail;
    forall e | e in conflicts ensures ExistsMessage(h, e) in errs {
      var i :| 0 <= i < |conflicts| && conflicts[i] == e;
      assert errs[i] == present[i];
    }
  }

  // ---------------------------------------------------------------- validate!

  /** "You did not provide a valid '<key>' value." */
  function MissingKeyMessage(k: string): string
  {
    "You did not provide a valid '" + k + "' value."
  }

  /** The key is set neither in knife's config nor in the command's config. */
  predicate Missing(knifeConfig: map<string, Value>, config: map<string, Value>, k: string)
  {
    Get(knifeConfig, k).Nil? && Get(config, k).Nil?
  }

  /** The errors of the key loop of `validate!`, in the order of `keys`. */
  function MissingKeyErrors(keys: seq<string>, knifeConfig: map<string, Value>, config: map<string, Value>): seq<string>
  {
    if keys == [] then []
    else
      var k := keys[|keys| - 1];
      MissingKeyErrors(keys[..|keys| - 1], knifeConfig, config) + (if Missing(knifeConfig, config, k) then [MissingKeyMessage(k)] else [])
  }

  /** One error per missing key, in the order of `keys`, and nothing else:
      `idx` lists, in increasing order, exactly the positions of the missing
      keys, and the `j`-th error names the key at `idx[j]`. */
  lemma {:induction false} MissingKeyErrorsSpec(keys: seq<string>, knifeConfig: map<string, Value>, config: map<string, Value>)
    returns (idx: seq<nat>)
    ensures var errs := MissingKeyErrors(keys, knifeConfig, config);
      |idx| == |errs| &&
      (forall j :: 0 <= j < |idx| ==>
         idx[j] < |keys| && Missing(knifeConfig, config, keys[idx[j]]) && errs[j] == MissingKeyMessage(keys[idx[j]])) &&
      (forall j, j' :: 0 <= j < j' < |idx| ==> idx[j] < idx[j']) &&
      (forall i :: 0 <= i < |keys| && Missing(knifeConfig, config, keys[i]) ==> i in idx)
  {
    if keys == [] {
      return [];
    }
    var n := |keys| - 1;
    var init := keys[..n];
    var prev := MissingKeyErrorsSpec(init, knifeConfig, config);
    if Missing(knifeConfig, config, keys[n]) {
      idx := prev + [n];
    } else {
      idx := prev;
    }
  }

  /** Every missing key is named, every error names a missing key, and there
      are no errors exactly when no key is missing. */
  lemma {:induction false} MissingKeyErrorsMembers(keys: seq<string>, knifeConfig: map<string, Value>, config: map<string, Value>)
    ensures var errs := MissingKeyErrors(keys, knifeConfig, config);
      |errs| <= |keys| &&
      (forall m :: m in errs ==> exists k :: k in keys && Missing(knifeConfig, config, k) && m == MissingKeyMessage(k)) &&
      (forall k :: k in keys && Missing(knifeConfig, config, k) ==> MissingKeyMessage(k) in errs) &&
      (errs == [] <==> forall k :: k in keys ==> !Missing(knifeConfig, config, k))
  {
    if keys != [] {
      var init := keys[..|keys| - 1];
      MissingKeyErrorsMembers(init, knifeConfig, config);
      assert forall k :: k in keys <==> k in init || k == keys[|keys| - 1];
    }
  }

  /** The errors the registered validators add, in registration order; only
      `validate_color` (for `cluster_tag`) can fail, when no color is set. */
  function ValidatorErrors(validated: seq<string>, color: Value): seq<string>
  {
    if validated == [] then []
    else
      ValidatorErrors(validated[..|validated| - 1], color)
        + (if validated[|validated| - 1] == "cluster_tag" && !Truthy(color) then [NoColor] else [])
  }

  /** The validators complain exactly when `cluster_tag` is validated and there is no color, and only about the color. */
  lemma {:induction false} ValidatorErrorsSpec(validated: seq<string>, color: Value)
    ensures forall m :: m in ValidatorErrors(validated, color) ==> m == NoColor
    ensures ValidatorErrors(validated, color) == [] <==> Truthy(color) || "cluster_tag" !in validated
  {
    if validated != [] {
      ValidatorErrorsSpec(validated[..|validated| - 1], color);
      assert forall k :: k in validated <==> k in validated[..|validated| - 1] || k == validated[|validated| - 1];
    }
  }

  /** Everything `validate!` appends. */
  function ValidateErrors(keys: seq<string>, knifeConfig: map<string, Value>, config: map<string, Value>,
                          validated: seq<string>, color: Value): seq<string>
  {
    MissingKeyErrors(keys, knifeConfig, config) + ValidatorErrors(validated, color)
  }
}
