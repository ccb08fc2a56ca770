// The SMTP integration (models/integrations/smtp.py, serializers/integrations/smtp.py):
// at most one configuration may be active. `save` deactivates every other configuration
// when the one being saved is active, and the serializer refuses to activate a second one.
module Smtp {
  import opened Wrappers
  import opened JsonValues

  /** An `SMTPConfiguration` row (the timestamps are left out). */
  datatype SmtpConfig = SmtpConfig(
    host: string, port: int, username: Option<string>, password: Option<string>, useTls: bool,
    fromEmail: string, fromName: Option<string>, isActive: bool, lastTested: Option<int>)

  /** A configuration with the column defaults: port 587, TLS on, active. */
  function DefaultConfig(host: string, fromEmail: string): SmtpConfig
  {
    SmtpConfig(host, 587, None, None, true, fromEmail, None, true, None)
  }

  /** Stored configurations by primary key. */
  type Configs = map<nat, SmtpConfig>

  predicate AtMostOneActive(cs: Configs)
  {
    forall a, b :: a in cs && b in cs && cs[a].isActive && cs[b].isActive ==> a == b
  }

  /** The table after `save` of `c` under the key `pk`: when `c` is active every other row
      is first updated to inactive (one bulk update), then `c` is written. */
  function Saved(cs: Configs, pk: nat, c: SmtpConfig): (r: Configs)
    ensures r.Keys == cs.Keys + {pk} && r[pk] == c
    ensures c.isActive ==> forall k :: k in r && k != pk ==> r[k] == cs[k].(isActive := false)
    ensures !c.isActive ==> forall k :: k in r && k != pk ==> r[k] == cs[k]
  {
    var others := if c.isActive then map k | k in cs :: cs[k].(isActive := false) else cs;
    others[pk := c]
  }

  /** Saving an active configuration leaves it the only active one. */
  lemma SaveActiveIsOnlyActive(cs: Configs, pk: nat, c: SmtpConfig)
    requires c.isActive
    ensures var r := Saved(cs, pk, c);
            && AtMostOneActive(r)
            && (forall k :: k in r && r[k].isActive <==> k == pk)
  {
  }

  /** Saving an inactive configuration keeps the other rows, so at most one stays active
      when at most one was. */
  lemma SaveInactiveKeepsRule(cs: Configs, pk: nat, c: SmtpConfig)
    requires !c.isActive && AtMostOneActive(cs)
    ensures AtMostOneActive(Saved(cs, pk, c))
    ensures forall k :: k in cs && k != pk ==> Saved(cs, pk, c)[k] == cs[k]
  {
  }

  const OnlyOneActive := "Only one SMTP configuration can be active at a time."

  /** Some active row other than `instance` (when given). */
  predicate OtherActive(cs: Configs, instance: Option<nat>)
  {
    exists k :: k in cs && cs[k].isActive && (instance.None? || k != instance.value)
  }

  /** `SMTPConfigurationSerializer.validate`: a truthy `is_active` is refused while another
      configuration is active; the instance being updated does not count. The data is
      returned unchanged. */
  function Validate(data: map<string, Json>, cs: Configs, instance: Option<nat>): (r: Result<map<string, Json>>)
    ensures ("is_active" !in data || !Truthy(data["is_active"])) ==> r == Ok(data)
    ensures r.Err? <==> "is_active" in data && Truthy(data["is_active"]) && OtherActive(cs, instance)
    ensures r.Err? ==> r.error == OnlyOneActive
    ensures r.Ok? ==> r.value == data
  {
    var isActive := if "is_active" in data then data["is_active"] else JNull;
    if Truthy(isActive) && OtherActive(cs, instance) then Err(OnlyOneActive) else Ok(data)
  }

  /** Re-saving the active configuration itself passes, and activating a second one fails. */
  lemma ValidateExcludesInstance(cs: Configs, pk: nat, data: map<string, Json>)
    requires AtMostOneActive(cs) && pk in cs && cs[pk].isActive
    ensures Validate(data, cs, Some(pk)).Ok?
    ensures forall other :: other !in cs && "is_active" in data && Truthy(data["is_active"])
                            ==> Validate(data, cs, Some(other)).Err? && Validate(data, cs, None).Err?
  {
  }

  /** The table of configurations. Keys below `nextId` are the ones handed out so far. */
  class SmtpStore {
    var configs: Configs
    var nextId: nat

    predicate Valid()
      reads this
    {
      forall k :: k in configs ==> k < nextId
    }

    constructor ()
      ensures configs == map[] && nextId == 0 && Valid()
    {
      configs := map[];
      nextId := 0;
    }

    /** `SMTPConfiguration.save`: a new row (`pk` is `None`) receives the next key. */
    method Save(pk: Option<nat>, c: SmtpConfig) returns (id: nat)
      requires Valid()
      modifies this
      ensures Valid()
      ensures id == (if pk.Some? then pk.value else old(nextId))
      ensures configs == Saved(old(configs), id, c)
      ensures pk.None? ==> id !in old(configs)
    {
      if pk.Some? {
        id := pk.value;
      } else {
        id := nextId;
      }
      if c.isActive {
        configs := map k | k in configs :: configs[k].(isActive := false);
      }
      configs := configs[id := c];
      if id >= nextId {
        nextId := id + 1;
      }
    }
  }
}
