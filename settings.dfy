/**
 * The settings helpers: reading the IP whitelist from the environment,
 * loading user-provided service credentials and the redis URL from a Cloud
 * Foundry VCAP_SERVICES binding into the environment, and deciding whether
 * the process runs the test suite.
 *
 * hourglass/settings_utils.py is not part of this model; each helper is the
 * smallest rule that agrees with what hourglass/tests.py asserts. The JSON
 * decoding of VCAP_SERVICES is a parameter.
 */
module SettingsUtils {
  import opened Wrappers
  import opened Text

  type Env = map<string, string>

  /** One service binding of VCAP_SERVICES: its name and its credentials. */
  datatype Binding = Binding(name: string, credentials: map<string, string>)

  /** VCAP_SERVICES after decoding: the bindings under each service label. */
  type Services = map<string, seq<Binding>>

  /** json.loads, as far as this model needs it. */
  type Decoder = string -> Services

  const VcapKey: string := "VCAP_SERVICES"
  const UserProvidedLabel: string := "user-provided"
  const RedisLabel: string := "redis28-swarm"
  const RedisUrlKey: string := "REDIS_URL"
  const WhitelistKey: string := "WHITELISTED_IPS"

  // ---------------------------------------------------------------------
  // get_whitelisted_ips

  /** The comma-separated whitelist, each entry trimmed, or None when it is not set. */
  function WhitelistedIps(env: Env): (r: Option<seq<string>>)
    ensures r.None? <==> WhitelistKey !in env
    ensures r.Some? ==> |r.value| == |Split(env[WhitelistKey], ',')|
    ensures r.Some? ==> forall i :: 0 <= i < |r.value| ==> r.value[i] == Trim(Split(env[WhitelistKey], ',')[i])
  {
    if WhitelistKey in env then
      var pieces := Split(env[WhitelistKey], ',');
      Some(seq(|pieces|, i requires 0 <= i < |pieces| => Trim(pieces[i])))
    else None
  }

  /** Entries without whitespace come back as they were joined, in order. */
  lemma WhitelistRoundTrip(env: Env, ips: seq<string>)
    requires |ips| > 0
    requires forall i :: 0 <= i < |ips| ==> ',' !in ips[i]
    requires forall i, k :: 0 <= i < |ips| && 0 <= k < |ips[i]| ==> !IsSpace(ips[i][k])
    requires WhitelistKey in env && env[WhitelistKey] == Join(ips, ",")
    ensures WhitelistedIps(env) == Some(ips)
  {
    SplitJoin(ips);
    var r := WhitelistedIps(env).value;
    assert |r| == |ips|;
    forall i | 0 <= i < |ips| ensures r[i] == ips[i] {
      TrimNoSpaces(ips[i]);
    }
    assert r == ips;
  }

  /** Joining pieces without commas with "," and splitting again gives the pieces. */
  lemma {:induction false} SplitJoin(ips: seq<string>)
    requires |ips| > 0
    requires forall i :: 0 <= i < |ips| ==> ',' !in ips[i]
    ensures Split(Join(ips, ","), ',') == ips
  {
    if |ips| == 1 {
      SplitWithoutSeparator(ips[0], ',');
    } else {
      SplitJoin(ips[1..]);
      assert ips[0] + "," + Join(ips[1..], ",") == ips[0] + [','] + Join(ips[1..], ",");
      SplitAround(ips[0], ',', Join(ips[1..], ","));
      SplitWithoutSeparator(ips[0], ',');
      assert ips == [ips[0]] + ips[1..];
    }
  }

  /** Three pieces without commas, joined by commas, split back into the pieces. */
  lemma SplitThree(a: string, b: string, c: string)
    requires ',' !in a && ',' !in b && ',' !in c
    ensures Split(a + [','] + b + [','] + c, ',') == [a, b, c]
  {
    calc {
      Split(a + [','] + b + [','] + c, ',');
      == { SplitAround(a + [','] + b, ',', c); }
      Split(a + [','] + b, ',') + Split(c, ',');
      == { SplitAround(a, ',', b); }
      Split(a, ',') + Split(b, ',') + Split(c, ',');
      == { SplitWithoutSeparator(a, ','); SplitWithoutSeparator(b, ','); SplitWithoutSeparator(c, ','); }
      [a] + [b] + [c];
    }
  }

  /** Three entries joined by commas are read back trimmed, in order. */
  lemma WhitelistOfThree(env: Env, a: string, b: string, c: string)
    requires ',' !in a && ',' !in b && ',' !in c
    requires WhitelistKey in env && env[WhitelistKey] == a + [','] + b + [','] + c
    ensures WhitelistedIps(env) == Some([Trim(a), Trim(b), Trim(c)])
  {
    SplitThree(a, b, c);
    var r := WhitelistedIps(env).value;
    assert |r| == 3 && r[0] == Trim(a) && r[1] == Trim(b) && r[2] == Trim(c);
    assert r == [r[0], r[1], r[2]];
  }

  /** A leading space is trimmed away. */
  lemma TrimLeadingSpace(s: string)
    requires forall k :: 0 <= k < |s| ==> !IsSpace(s[k])
    ensures Trim([' '] + s) == s
  {
    assert ([' '] + s)[1..] == s;
    TrimNoSpaces(s);
  }

  lemma WhitelistText()
    ensures "1.2.3.4,1.2.3.8, 1.2.3.16" == "1.2.3.4" + [','] + "1.2.3.8" + [','] + ([' '] + "1.2.3.16")
  {
  }

  lemma TrimFirstIp()
    ensures Trim("1.2.3.4") == "1.2.3.4"
  {
    TrimNoSpaces("1.2.3.4");
  }

  lemma TrimSecondIp()
    ensures Trim("1.2.3.8") == "1.2.3.8"
  {
    TrimNoSpaces("1.2.3.8");
  }

  lemma TrimThirdIp()
    ensures Trim([' '] + "1.2.3.16") == "1.2.3.16"
  {
    TrimLeadingSpace("1.2.3.16");
  }

  /** The whitelist example: the space after the second comma is trimmed. */
  lemma WhitelistExample(env: Env)
    requires WhitelistKey in env && env[WhitelistKey] == "1.2.3.4,1.2.3.8, 1.2.3.16"
    ensures WhitelistedIps(env) == Some(["1.2.3.4", "1.2.3.8", "1.2.3.16"])
  {
    WhitelistText();
    WhitelistOfThree(env, "1.2.3.4", "1.2.3.8", [' '] + "1.2.3.16");
    TrimFirstIp();
    TrimSecondIp();
    TrimThirdIp();
  }

  // ---------------------------------------------------------------------
  // load_cups_from_vcap_services and load_redis_url_from_vcap_services

  /** vcap.get(label, []): the bindings under a label, none when VCAP_SERVICES is unset. */
  function BindingsOf(env: Env, decode: Decoder, service: string): (r: seq<Binding>)
    ensures VcapKey !in env ==> r == []
  {
    if VcapKey !in env then []
    else
      var services := decode(env[VcapKey]);
      if service in services then services[service] else []
  }

  predicate Matching(bindings: seq<Binding>, name: string, i: int) {
    0 <= i < |bindings| && bindings[i].name == name
  }

  /**
   * The environment after copying the credentials of every binding with the
   * given name, in order: a later binding overrides an earlier one.
   */
  function CupsOverlay(env: Env, bindings: seq<Binding>, name: string): Env
  {
    if |bindings| == 0 then env
    else
      var prev := CupsOverlay(env, bindings[..|bindings| - 1], name);
      var last := bindings[|bindings| - 1];
      if last.name == name then prev + last.credentials else prev
  }

  /** The bindings before the last one, seen from the whole sequence. */
  lemma InitMatching(bindings: seq<Binding>, name: string)
    requires |bindings| > 0
    ensures forall i :: Matching(bindings[..|bindings| - 1], name, i) <==> Matching(bindings, name, i) && i < |bindings| - 1
    ensures forall i :: 0 <= i < |bindings| - 1 ==> bindings[..|bindings| - 1][i] == bindings[i]
  {
  }

  /** The variables afterwards: the old ones and the named bindings' credentials. */
  lemma {:induction false} CupsKeys(env: Env, bindings: seq<Binding>, name: string)
    ensures forall k :: k in CupsOverlay(env, bindings, name) <==>
      k in env || exists i :: Matching(bindings, name, i) && k in bindings[i].credentials
  {
    if |bindings| > 0 {
      var n := |bindings| - 1;
      CupsKeys(env, bindings[..n], name);
      InitMatching(bindings, name);
      forall k | k in CupsOverlay(env, bindings, name)
        ensures k in env || exists i :: Matching(bindings, name, i) && k in bindings[i].credentials
      {
        if k in bindings[n].credentials && bindings[n].name == name {
          assert Matching(bindings, name, n);
        }
      }
    }
  }

  /** A variable no named binding provides keeps its value. */
  lemma {:induction false} CupsKeepsOthers(env: Env, bindings: seq<Binding>, name: string, k: string)
    requires k in env
    requires forall i :: Matching(bindings, name, i) ==> k !in bindings[i].credentials
    ensures k in CupsOverlay(env, bindings, name) && CupsOverlay(env, bindings, name)[k] == env[k]
  {
    if |bindings| > 0 {
      var n := |bindings| - 1;
      InitMatching(bindings, name);
      CupsKeepsOthers(env, bindings[..n], name, k);
      if bindings[n].name == name {
        assert Matching(bindings, name, n);
      }
    }
  }

  /** A credential takes its value from the last named binding that provides it. */
  lemma {:induction false} CupsLastWins(env: Env, bindings: seq<Binding>, name: string, i: nat, k: string)
    requires Matching(bindings, name, i) && k in bindings[i].credentials
    requires forall j :: i < j && Matching(bindings, name, j) ==> k !in bindings[j].credentials
    ensures k in CupsOverlay(env, bindings, name)
    ensures CupsOverlay(env, bindings, name)[k] == bindings[i].credentials[k]
  {
    var n := |bindings| - 1;
    InitMatching(bindings, name);
    if i < n {
      CupsLastWins(env, bindings[..n], name, i, k);
      if bindings[n].name == name {
        assert Matching(bindings, name, n);
      }
    }
  }

  /** With no binding of that name the environment is left as it was. */
  lemma {:induction false} CupsIgnoresOtherNames(env: Env, bindings: seq<Binding>, name: string)
    requires forall i :: 0 <= i < |bindings| ==> bindings[i].name != name
    ensures CupsOverlay(env, bindings, name) == env
  {
    if |bindings| > 0 {
      InitMatching(bindings, name);
      CupsIgnoresOtherNames(env, bindings[..|bindings| - 1], name);
    }
  }

  /** The URL of a redis binding, or None where a credential is missing (a KeyError). */
  function RedisUrl(credentials: map<string, string>): (r: Option<string>)
    ensures r.Some? <==> "password" in credentials && "hostname" in credentials && "port" in credentials
    ensures r.Some? ==> StartsWith(r.value, "redis://:" + credentials["password"] + "@")
  {
    if "password" in credentials && "hostname" in credentials && "port" in credentials then
      var head := "redis://:" + credentials["password"] + "@";
      var url := head + credentials["hostname"] + ":" + credentials["port"];
      assert url[..|head|] == head;
      Some(url)
    else None
  }

  /**
   * The environment after setting REDIS_URL from every binding with the given
   * name, in order, and whether a missing credential raised KeyError first.
   */
  function RedisOverlay(env: Env, bindings: seq<Binding>, name: string): (Env, bool)
  {
    if |bindings| == 0 then (env, false)
    else
      var prev := RedisOverlay(env, bindings[..|bindings| - 1], name);
      var last := bindings[|bindings| - 1];
      if prev.1 || last.name != name then prev
      else
        match RedisUrl(last.credentials)
        case None => (prev.0, true)
        case Some(url) => (prev.0[RedisUrlKey := url], false)
  }

  /** The redis loader sets REDIS_URL and nothing else. */
  lemma {:induction false} RedisOnlySetsUrl(env: Env, bindings: seq<Binding>, name: string)
    ensures RedisOverlay(env, bindings, name).0.Keys <= env.Keys + {RedisUrlKey}
    ensures forall k :: k in env && k != RedisUrlKey ==>
      k in RedisOverlay(env, bindings, name).0 && RedisOverlay(env, bindings, name).0[k] == env[k]
  {
    if |bindings| > 0 {
      RedisOnlySetsUrl(env, bindings[..|bindings| - 1], name);
    }
  }

  /** A REDIS_URL the loader sets is the URL of a binding with the given name. */
  lemma {:induction false} RedisUrlFromBinding(env: Env, bindings: seq<Binding>, name: string)
    ensures var r := RedisOverlay(env, bindings, name).0;
      RedisUrlKey in r && (RedisUrlKey in env ==> r[RedisUrlKey] != env[RedisUrlKey]) ==>
      exists i :: Matching(bindings, name, i) && RedisUrl(bindings[i].credentials) == Some(r[RedisUrlKey])
  {
    if |bindings| > 0 {
      var n := |bindings| - 1;
      InitMatching(bindings, name);
      RedisUrlFromBinding(env, bindings[..n], name);
      var r := RedisOverlay(env, bindings, name).0;
      var prev := RedisOverlay(env, bindings[..n], name);
      if RedisUrlKey in r && (RedisUrlKey in env ==> r[RedisUrlKey] != env[RedisUrlKey]) {
        if r == prev.0 {
          var i :| Matching(bindings[..n], name, i) && RedisUrl(bindings[..n][i].credentials) == Some(prev.0[RedisUrlKey]);
          assert Matching(bindings, name, i);
        } else {
          assert Matching(bindings, name, n);
        }
      }
    }
  }

  /** With no binding of that name the environment is left as it was. */
  lemma {:induction false} RedisIgnoresOtherNames(env: Env, bindings: seq<Binding>, name: string)
    requires forall i :: 0 <= i < |bindings| ==> bindings[i].name != name
    ensures RedisOverlay(env, bindings, name) == (env, false)
  {
    if |bindings| > 0 {
      InitMatching(bindings, name);
      RedisIgnoresOtherNames(env, bindings[..|bindings| - 1], name);
    }
  }

  /** Once KeyError is raised, the later bindings are not looked at. */
  lemma {:induction false} RaisedStops(env: Env, bindings: seq<Binding>, name: string, i: nat)
    requires i <= |bindings| && RedisOverlay(env, bindings[..i], name).1
    ensures RedisOverlay(env, bindings, name) == RedisOverlay(env, bindings[..i], name)
    decreases |bindings| - i
  {
    if i < |bindings| {
      assert bindings[..i + 1][..i] == bindings[..i];
      RaisedStops(env, bindings, name, i + 1);
    } else {
      assert bindings[..i] == bindings;
    }
  }

  /** The process environment (os.environ or the env argument). */
  class Environment {
    var vars: Env

    constructor (initial: Env)
      ensures vars == initial
    {
      vars := initial;
    }

    /** load_cups_from_vcap_services: copies the named user-provided binding's credentials. */
    method LoadCups(name: string, decode: Decoder)
      modifies this
      ensures vars == CupsOverlay(old(vars), BindingsOf(old(vars), decode, UserProvidedLabel), name)
    {
      var bindings := BindingsOf(vars, decode, UserProvidedLabel);
      ghost var env := vars;
      var i := 0;
      while i < |bindings|
        invariant 0 <= i <= |bindings|
        invariant vars == CupsOverlay(env, bindings[..i], name)
      {
        assert bindings[..i + 1][..i] == bindings[..i];
        if bindings[i].name == name {
          vars := vars + bindings[i].credentials;
        }
        i := i + 1;
      }
      assert bindings[..i] == bindings;
    }

    /**
     * load_redis_url_from_vcap_services: sets REDIS_URL from the named redis
     * binding; raised is true when a credential was missing.
     */
    method LoadRedisUrl(name: string, decode: Decoder) returns (raised: bool)
      modifies this
      ensures (vars, raised) == RedisOverlay(old(vars), BindingsOf(old(vars), decode, RedisLabel), name)
    {
      var bindings := BindingsOf(vars, decode, RedisLabel);
      ghost var env := vars;
      raised := false;
      var i := 0;
      while i < |bindings| && !raised
        invariant 0 <= i <= |bindings|
        invariant (vars, raised) == RedisOverlay(env, bindings[..i], name)
      {
        assert bindings[..i + 1][..i] == bindings[..i];
        if bindings[i].name == name {
          var url := RedisUrl(bindings[i].credentials);
          if url.None? {
            raised := true;
          } else {
            vars := vars[RedisUrlKey := url.value];
          }
        }
        i := i + 1;
      }
      if raised {
        RaisedStops(env, bindings, name, i);
      } else {
        assert bindings[..i] == bindings;
      }
    }
  }

  /** Without VCAP_SERVICES neither loader changes the environment. */
  lemma LoadersNoopWithoutVcap(env: Env, decode: Decoder, name: string)
    requires VcapKey !in env
    ensures CupsOverlay(env, BindingsOf(env, decode, UserProvidedLabel), name) == env
    ensures RedisOverlay(env, BindingsOf(env, decode, RedisLabel), name) == (env, false)
  {
  }

  /** The cups tests: only the binding named boop-env contributes boop = jones. */
  lemma CupsExamples(decode: Decoder, raw: string)
    requires decode(raw) == map[UserProvidedLabel := [Binding("NOT-boop-env", map["boop" := "jones"])]]
    ensures "boop" !in CupsOverlay(map[VcapKey := raw], BindingsOf(map[VcapKey := raw], decode, UserProvidedLabel), "boop-env")
  {
    var env := map[VcapKey := raw];
    CupsIgnoresOtherNames(env, BindingsOf(env, decode, UserProvidedLabel), "boop-env");
  }

  lemma CupsCredentialsExample(decode: Decoder, raw: string)
    requires decode(raw) == map[UserProvidedLabel := [Binding("boop-env", map["boop" := "jones"])]]
    ensures var r := CupsOverlay(map[VcapKey := raw], BindingsOf(map[VcapKey := raw], decode, UserProvidedLabel), "boop-env");
      "boop" in r && r["boop"] == "jones"
  {
    var bindings := BindingsOf(map[VcapKey := raw], decode, UserProvidedLabel);
    assert Matching(bindings, "boop-env", 0);
  }

  /** The redis test: the URL is assembled from password, hostname and port. */
  lemma RedisUrlExample()
    ensures RedisUrl(map["hostname" := "the_host", "password" := "the_password", "port" := "1234"]) ==
      Some("redis://:" + "the_password" + "@" + "the_host" + ":" + "1234")
  {
  }

  lemma RedisLoadedExample(decode: Decoder, raw: string, creds: map<string, string>)
    requires creds == map["hostname" := "the_host", "password" := "the_password", "port" := "1234"]
    requires decode(raw) == map[RedisLabel := [Binding("redis-service", creds)]]
    ensures var r := RedisOverlay(map[VcapKey := raw], BindingsOf(map[VcapKey := raw], decode, RedisLabel), "redis-service");
      !r.1 && RedisUrlKey in r.0 && r.0[RedisUrlKey] == "redis://:" + "the_password" + "@" + "the_host" + ":" + "1234"
  {
    var bindings := BindingsOf(map[VcapKey := raw], decode, RedisLabel);
    assert bindings == [Binding("redis-service", creds)];
    assert bindings[..0] == [];
    RedisUrlExample();
  }

  // ---------------------------------------------------------------------
  // is_running_tests

  /** The command line runs the tests: `manage.py test`, or a py.test executable. */
  predicate IsRunningTests(argv: seq<string>) {
    (|argv| >= 2 && argv[1] == "test") || (|argv| >= 1 && EndsWith(argv[0], "py.test"))
  }

  lemma IsRunningTestsExamples()
    ensures !IsRunningTests(["gunicorn"])
    ensures !IsRunningTests(["manage.py", "runserver"])
    ensures IsRunningTests(["manage.py", "test"])
    ensures IsRunningTests(["/usr/local/bin/py.test"])
  {
    assert "/usr/local/bin/py.test"[15..] == "py.test";
  }
}
