/**
 * The configuration file and the decision, in `send_email`, whether a report
 * mail is sent (vmaf.py:74-96 and vmaf.py:168-184).
 *
 * The file is TOML; the model works on the table the `toml` package loads from
 * it, as a map from key to value.  Python's exceptions on the way (a missing key,
 * indexing into a value that is not a table, `len` of a value that has none)
 * become `Err` results.  The SMTP session that follows a positive decision is
 * not part of this model.
 */
module Mail {
  import opened Wrappers

  /** A TOML value as loaded: strings, integers, booleans, floats, arrays and tables. */
  datatype Value =
    | Str(s: string)
    | Int(i: int)
    | Bool(b: bool)
    | Float(f: real)
    | Array(items: seq<Value>)
    | Table(fields: map<string, Value>)

  /** A loaded configuration file: its top-level table. */
  type Config = map<string, Value>

  /** The Python exception that ends the check. */
  datatype Error =
    | KeyMissing(key: string)   // KeyError from `config[...]`
    | NotATable(key: string)    // TypeError from indexing a value that is not a table
    | NoLength(key: string)     // TypeError from `len` of a number or boolean

  /** Python truthiness, as `not enable` reads it. */
  predicate Truthy(v: Value)
  {
    match v
    case Str(s) => s != []
    case Int(i) => i != 0
    case Bool(b) => b
    case Float(f) => f != 0.0
    case Array(items) => items != []
    case Table(fields) => fields != map[]
  }

  /** Python's `len` of a loaded value; None where `len` raises. */
  function Len(v: Value): Option<nat>
  {
    match v
    case Str(s) => Some(|s|)
    case Array(items) => Some(|items|)
    case Table(fields) => Some(|fields|)
    case _ => None
  }

  /** The keys `send_email` reads from the `smtp` table, in the order it reads them. */
  const SmtpKeys: seq<string> :=
    ["enable", "server", "port", "sender", "password", "receiver", "name_sender", "name_receiver"]

  /** The fields that must be non-empty, in the order the condition tests them. */
  const RequiredKeys: seq<string> := ["server", "sender", "password", "receiver"]

  /** What `send_email` goes on to use when it does send. */
  datatype Settings = Settings(
    server: Value, port: Value, sender: Value, password: Value,
    receiver: Value, nameSender: Value, nameReceiver: Value)

  /** The seven values lines 80-86 read after `enable`. */
  function SettingsOf(t: map<string, Value>): Settings
    requires forall k :: k in SmtpKeys ==> k in t
  {
    Settings(t["server"], t["port"], t["sender"], t["password"],
             t["receiver"], t["name_sender"], t["name_receiver"])
  }

  /** The outcome of the check: return early, or go on to send with these settings. */
  datatype Decision = Skip | Send(settings: Settings)

  /** `config["smtp"]`. */
  function SmtpTable(config: Config): (r: Result<map<string, Value>, Error>)
    ensures r.Ok? <==> "smtp" in config && config["smtp"].Table?
    ensures r.Ok? ==> r.value == config["smtp"].fields
  {
    if "smtp" !in config then Err(KeyMissing("smtp"))
    else if !config["smtp"].Table? then Err(NotATable("smtp"))
    else Ok(config["smtp"].fields)
  }

  /** The first of `keys` that the table lacks: the KeyError raised by reading them in order. */
  function FirstMissing(t: map<string, Value>, keys: seq<string>): (r: Option<nat>)
    ensures r.None? <==> forall i :: 0 <= i < |keys| ==> keys[i] in t
    ensures r.Some? ==> r.value < |keys| && keys[r.value] !in t
    ensures r.Some? ==> forall i :: 0 <= i < r.value ==> keys[i] in t
  {
    if keys == [] then None
    else if keys[0] !in t then Some(0)
    else
      match FirstMissing(t, keys[1..])
      case None => None
      case Some(j) => Some(j + 1)
  }

  /** The fields before position `i` all have a non-zero length, so the `or` chain gets past them. */
  predicate ClearBefore(t: map<string, Value>, keys: seq<string>, i: nat)
    requires i <= |keys|
    requires forall j :: 0 <= j < |keys| ==> keys[j] in t
  {
    forall j :: 0 <= j < i ==> Len(t[keys[j]]).Some? && Len(t[keys[j]]).value != 0
  }

  /**
   * `len(t[k]) == 0 or ...` over `keys`, left to right: Ok(true) as soon as one
   * field is empty, the TypeError of the first field without a length reached
   * before that, Ok(false) when every field has a non-zero length.
   */
  function AnyEmpty(t: map<string, Value>, keys: seq<string>): (r: Result<bool, Error>)
    requires forall i :: 0 <= i < |keys| ==> keys[i] in t
    ensures r == Ok(false) <==> ClearBefore(t, keys, |keys|)
    ensures r == Ok(true) <==>
      exists i :: 0 <= i < |keys| && Len(t[keys[i]]) == Some(0) && ClearBefore(t, keys, i)
    ensures r.Err? <==>
      exists i :: 0 <= i < |keys| && Len(t[keys[i]]).None? && ClearBefore(t, keys, i)
    ensures r.Err? ==>
      exists i :: 0 <= i < |keys| && r.error == NoLength(keys[i]) && Len(t[keys[i]]).None? && ClearBefore(t, keys, i)
  {
    if keys == [] then Ok(false)
    else
      match Len(t[keys[0]])
      case None => assert ClearBefore(t, keys, 0); Err(NoLength(keys[0]))
      case Some(n) =>
        if n == 0 then assert ClearBefore(t, keys, 0); Ok(true)
        else
          var r := AnyEmpty(t, keys[1..]);
          AnyEmptyShift(t, keys);
          r
  }

  /** Past a first field of non-zero length, the positions in the rest are those of `keys` shifted by one. */
  lemma {:induction false} AnyEmptyShift(t: map<string, Value>, keys: seq<string>)
    requires keys != [] && forall i :: 0 <= i < |keys| ==> keys[i] in t
    requires Len(t[keys[0]]).Some? && Len(t[keys[0]]).value != 0
    ensures forall i :: 0 <= i <= |keys| - 1 ==> (ClearBefore(t, keys[1..], i) <==> ClearBefore(t, keys, i + 1))
    ensures forall i :: 0 < i <= |keys| ==> ClearBefore(t, keys, i) == ClearBefore(t, keys[1..], i - 1)
  {
    forall i | 0 <= i <= |keys| - 1
      ensures ClearBefore(t, keys[1..], i) <==> ClearBefore(t, keys, i + 1)
    {
      assert forall j :: 0 <= j < i ==> keys[1..][j] == keys[j + 1];
      if ClearBefore(t, keys[1..], i) {
        forall j | 0 <= j < i + 1
          ensures Len(t[keys[j]]).Some? && Len(t[keys[j]]).value != 0
        {
          if j > 0 {
            assert keys[j] == keys[1..][j - 1];
          }
        }
      }
    }
  }

  /** Every key is there once `FirstMissing` finds none missing. */
  lemma KeysPresent(t: map<string, Value>)
    requires forall i :: 0 <= i < |SmtpKeys| ==> SmtpKeys[i] in t
    ensures "enable" in t && "server" in t && "port" in t && "sender" in t
    ensures "password" in t && "receiver" in t && "name_sender" in t && "name_receiver" in t
    ensures forall i :: 0 <= i < |RequiredKeys| ==> RequiredKeys[i] in t
    ensures forall k :: k in SmtpKeys ==> k in t
  {
    assert SmtpKeys[0] in t && SmtpKeys[1] in t && SmtpKeys[2] in t && SmtpKeys[3] in t;
    assert SmtpKeys[4] in t && SmtpKeys[5] in t && SmtpKeys[6] in t && SmtpKeys[7] in t;
  }

  /**
   * Lines 79-96 of `send_email`: read the eight keys, then test the condition.
   * It goes on only once all eight keys have been read, and sends only when
   * `enable` is truthy and every required field has a non-zero length, with
   * the settings taken from the table.
   */
  function Eligibility(config: Config): (r: Result<Decision, Error>)
    ensures r.Ok? ==>
      && "smtp" in config && config["smtp"].Table?
      && (forall k :: k in SmtpKeys ==> k in config["smtp"].fields)
      && forall i :: 0 <= i < |RequiredKeys| ==> RequiredKeys[i] in config["smtp"].fields
    ensures r.Ok? && r.value.Send? ==>
      var t := config["smtp"].fields;
      && Truthy(t["enable"])
      && ClearBefore(t, RequiredKeys, |RequiredKeys|)
      && r.value.settings == SettingsOf(t)
  {
    match SmtpTable(config)
    case Err(e) => Err(e)
    case Ok(t) =>
      match FirstMissing(t, SmtpKeys)
      case Some(i) => Err(KeyMissing(SmtpKeys[i]))
      case None =>
        KeysPresent(t);
        if !Truthy(t["enable"]) then Ok(Skip)
        else
          match AnyEmpty(t, RequiredKeys)
          case Err(e) => Err(e)
          case Ok(empty) =>
            if empty then Ok(Skip)
            else Ok(Send(SettingsOf(t)))
  }

  // ---------------------------------------------------------------- properties

  /** A configuration whose `smtp` table has all eight keys and string-valued required fields. */
  predicate WellFormed(config: Config)
  {
    && "smtp" in config && config["smtp"].Table?
    && (forall k :: k in SmtpKeys ==> k in config["smtp"].fields)
    && (forall k :: k in RequiredKeys ==> config["smtp"].fields[k].Str?)
  }

  /** The condition stated on the fields themselves. */
  predicate MailEnabled(t: map<string, Value>)
    requires forall k :: k in SmtpKeys ==> k in t
    requires forall k :: k in RequiredKeys ==> t[k].Str?
  {
    && Truthy(t["enable"])
    && t["server"].s != []
    && t["sender"].s != []
    && t["password"].s != []
    && t["receiver"].s != []
  }

  /**
   * On a well-formed configuration the check never fails, and mail is sent
   * exactly when `enable` is truthy and server, sender, password and receiver
   * are all non-empty.
   */
  lemma EligibleIff(config: Config)
    requires WellFormed(config)
    ensures Eligibility(config).Ok?
    ensures Eligibility(config).value.Send? <==> MailEnabled(config["smtp"].fields)
  {
    var t := config["smtp"].fields;
    forall i | 0 <= i < |SmtpKeys|
      ensures SmtpKeys[i] in t
    {
      assert SmtpKeys[i] in SmtpKeys;
    }
    KeysPresent(t);
    assert t["server"].Str? && t["sender"].Str? && t["password"].Str? && t["receiver"].Str?;
    AnyEmptyOfStrings(t, RequiredKeys);
    var nonEmpty := t["server"].s != [] && t["sender"].s != [] && t["password"].s != [] && t["receiver"].s != [];
    if nonEmpty {
      assert AnyEmpty(t, RequiredKeys) == Ok(false);
    } else {
      assert exists i :: 0 <= i < |RequiredKeys| && t[RequiredKeys[i]].s == [] by {
        if t["server"].s == [] {
          assert t[RequiredKeys[0]].s == [];
        } else if t["sender"].s == [] {
          assert t[RequiredKeys[1]].s == [];
        } else if t["password"].s == [] {
          assert t[RequiredKeys[2]].s == [];
        } else {
          assert t[RequiredKeys[3]].s == [];
        }
      }
    }
  }

  /** Over string fields `len` never raises, so the test only reports whether one is empty. */
  lemma {:induction false} AnyEmptyOfStrings(t: map<string, Value>, keys: seq<string>)
    requires forall i :: 0 <= i < |keys| ==> keys[i] in t && t[keys[i]].Str?
    ensures AnyEmpty(t, keys).Ok?
    ensures AnyEmpty(t, keys) == Ok(false) <==> forall i :: 0 <= i < |keys| ==> t[keys[i]].s != []
  {
    if keys != [] {
      AnyEmptyOfStrings(t, keys[1..]);
    }
  }

  /** With `enable` present but falsy, every key present, the check returns early whatever else the table holds. */
  lemma DisabledSkips(config: Config)
    requires "smtp" in config && config["smtp"].Table?
    requires forall k :: k in SmtpKeys ==> k in config["smtp"].fields
    requires !Truthy(config["smtp"].fields["enable"])
    ensures Eligibility(config) == Ok(Skip)
  {
    var t := config["smtp"].fields;
    assert forall i :: 0 <= i < |SmtpKeys| ==> SmtpKeys[i] in t;
  }

  /**
   * With every key present and `enable` truthy, a required field without a
   * length (a number, a boolean) reached before any empty one raises the
   * TypeError of that field: the run is reported as failed, not as a skipped mail.
   */
  lemma EnabledNoLengthFails(config: Config, i: nat)
    requires "smtp" in config && config["smtp"].Table?
    requires forall k :: k in SmtpKeys ==> k in config["smtp"].fields
    requires Truthy(config["smtp"].fields["enable"])
    requires i < |RequiredKeys| && Len(config["smtp"].fields[RequiredKeys[i]]).None?
    requires forall j :: 0 <= j < i ==>
      Len(config["smtp"].fields[RequiredKeys[j]]).Some? && Len(config["smtp"].fields[RequiredKeys[j]]).value != 0
    ensures Eligibility(config) == Err(NoLength(RequiredKeys[i]))
  {
    var t := config["smtp"].fields;
    assert forall i :: 0 <= i < |SmtpKeys| ==> SmtpKeys[i] in t;
    KeysPresent(t);
    var r := AnyEmpty(t, RequiredKeys);
    assert ClearBefore(t, RequiredKeys, i);
    assert r.Err?;
    var k :| 0 <= k < |RequiredKeys| && r.error == NoLength(RequiredKeys[k]) && Len(t[RequiredKeys[k]]).None? && ClearBefore(t, RequiredKeys, k);
    assert k == i;
  }

  /** Any of the eight keys missing from the table is a KeyError, never a skip. */
  lemma MissingKeyFails(config: Config, k: string)
    requires "smtp" in config && config["smtp"].Table?
    requires k in SmtpKeys && k !in config["smtp"].fields
    ensures Eligibility(config).Err? && Eligibility(config).error.KeyMissing?
  {
    var t := config["smtp"].fields;
    var i :| 0 <= i < |SmtpKeys| && SmtpKeys[i] == k;
    assert FirstMissing(t, SmtpKeys).Some?;
  }

  /** The same table with one key set to another value. */
  function WithField(config: Config, key: string, v: Value): (r: Config)
    requires "smtp" in config && config["smtp"].Table?
    ensures r.Keys == config.Keys && r["smtp"].Table?
    ensures r["smtp"].fields == config["smtp"].fields[key := v]
  {
    config["smtp" := Table(config["smtp"].fields[key := v])]
  }

  /** The values of `port`, `name_sender` and `name_receiver` never change whether mail is sent. */
  lemma OtherFieldsIrrelevant(config: Config, key: string, v: Value)
    requires "smtp" in config && config["smtp"].Table?
    requires key in {"port", "name_sender", "name_receiver"} && key in config["smtp"].fields
    ensures var before, after := Eligibility(config), Eligibility(WithField(config, key, v));
      && before.Ok? == after.Ok?
      && (before.Ok? ==> before.value.Send? == after.value.Send?)
  {
    var t := config["smtp"].fields;
    var t' := t[key := v];
    assert forall i :: 0 <= i < |SmtpKeys| ==> (SmtpKeys[i] in t <==> SmtpKeys[i] in t');
    assert FirstMissing(t, SmtpKeys) == FirstMissing(t', SmtpKeys) by {
      FirstMissingSameKeys(t, t', SmtpKeys);
    }
    if FirstMissing(t, SmtpKeys).None? {
      KeysPresent(t);
      forall i | 0 <= i < |RequiredKeys|
        ensures RequiredKeys[i] in t' && t[RequiredKeys[i]] == t'[RequiredKeys[i]]
      {
        assert RequiredKeys[i] != key by {
          assert RequiredKeys[i] in RequiredKeys;
          assert i == 0 || i == 1 || i == 2 || i == 3;
        }
      }
      AnyEmptySameFields(t, t', RequiredKeys);
    }
  }

  lemma {:induction false} FirstMissingSameKeys(t: map<string, Value>, t': map<string, Value>, keys: seq<string>)
    requires forall i :: 0 <= i < |keys| ==> (keys[i] in t <==> keys[i] in t')
    ensures FirstMissing(t, keys) == FirstMissing(t', keys)
  {
    if keys != [] {
      FirstMissingSameKeys(t, t', keys[1..]);
    }
  }

  lemma {:induction false} AnyEmptySameFields(t: map<string, Value>, t': map<string, Value>, keys: seq<string>)
    requires forall i :: 0 <= i < |keys| ==> keys[i] in t && keys[i] in t' && t[keys[i]] == t'[keys[i]]
    ensures AnyEmpty(t, keys) == AnyEmpty(t', keys)
  {
    if keys != [] {
      AnyEmptySameFields(t, t', keys[1..]);
    }
  }

  // ---------------------------------------------------------------- the config file

  /**
   * The table `create_config_file` writes when there is no file: every key the
   * check reads except `enable`, the strings empty and the port 25.
   */
  function DefaultConfig(): (r: Config)
    ensures "smtp" in r && r["smtp"].Table?
    ensures "enable" !in r["smtp"].fields && |r["smtp"].fields| == |SmtpKeys| - 1
    ensures forall i :: 1 <= i < |SmtpKeys| ==> SmtpKeys[i] in r["smtp"].fields
    ensures forall i :: 1 <= i < |SmtpKeys| && SmtpKeys[i] != "port" ==> r["smtp"].fields[SmtpKeys[i]] == Str("")
    ensures "port" in r["smtp"].fields && r["smtp"].fields["port"] == Int(25)
  {
    map["smtp" := Table(map[
      "server" := Str(""),
      "port" := Int(25),
      "sender" := Str(""),
      "password" := Str(""),
      "receiver" := Str(""),
      "name_sender" := Str(""),
      "name_receiver" := Str("")])]
  }

  /**
   * `create_config_file`: the file's contents after the call, given what was
   * there before (None when there was no file).  An existing file is left as it is.
   */
  function CreateConfigFile(existing: Option<Config>): (r: Config)
    ensures existing.Some? ==> r == existing.value
    ensures existing.None? ==> "smtp" in r && r["smtp"].Table? && "enable" !in r["smtp"].fields
    ensures existing.None? ==> |r["smtp"].fields| == |SmtpKeys| - 1
    ensures existing.None? ==> forall i :: 1 <= i < |SmtpKeys| ==> SmtpKeys[i] in r["smtp"].fields
    ensures existing.None? ==>
      forall i :: 1 <= i < |SmtpKeys| && SmtpKeys[i] != "port" ==> r["smtp"].fields[SmtpKeys[i]] == Str("")
    ensures existing.None? ==> "port" in r["smtp"].fields && r["smtp"].fields["port"] == Int(25)
  {
    if existing.None? then DefaultConfig() else existing.value
  }

  /** Running `create_config_file` twice leaves the file as the first run did. */
  lemma CreateConfigIdempotent(existing: Option<Config>)
    ensures CreateConfigFile(Some(CreateConfigFile(existing))) == CreateConfigFile(existing)
  {
  }

  /**
   * On a freshly created configuration the check does not skip: reading
   * `enable` raises a KeyError, which the caller's generic handler reports as a
   * failed inspection.
   */
  lemma FreshConfigFails()
    ensures Eligibility(CreateConfigFile(None)) == Err(KeyMissing("enable"))
  {
    var t := DefaultConfig()["smtp"].fields;
    assert "enable" !in t;
    assert FirstMissing(t, SmtpKeys) == Some(0);
  }

  /**
   * The default table with the `enable = false` entry that the check reads
   * first: a fresh file then passes the check and no mail is sent.
   */
  function IntendedDefaultConfig(): (r: Config)
    ensures WellFormed(r) && !MailEnabled(r["smtp"].fields)
  {
    var r := WithField(DefaultConfig(), "enable", Bool(false));
    assert forall k :: k in SmtpKeys ==> k in r["smtp"].fields;
    r
  }

  /** With the intended default, a freshly created file makes the script skip the mail without an error. */
  lemma IntendedFreshConfigSkips()
    ensures Eligibility(IntendedDefaultConfig()) == Ok(Skip)
  {
    EligibleIff(IntendedDefaultConfig());
    var t := IntendedDefaultConfig()["smtp"].fields;
    assert forall i :: 0 <= i < |SmtpKeys| ==> SmtpKeys[i] in t;
  }

  /** Adding `enable = true` to a fresh file still sends nothing: the required fields are empty. */
  lemma FreshConfigEnabledSkips()
    ensures Eligibility(WithField(DefaultConfig(), "enable", Bool(true))) == Ok(Skip)
  {
    var t := WithField(DefaultConfig(), "enable", Bool(true))["smtp"].fields;
    assert forall i :: 0 <= i < |SmtpKeys| ==> SmtpKeys[i] in t;
    assert t["server"] == Str("");
  }
}
