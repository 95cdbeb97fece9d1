/** The data changes the schema migrations make besides creating tables:
    version 1.1.0 seeds the portal and organisation settings, version 1.2.0
    grants organisation management to the Admin role. Both are written to be
    safe to run again. */
module Migrations {
  import opened Settings

  /** Inserts `key` with `value` unless the key is present, which keeps its
      value (internal/migrations/v1.1.0.go:16). */
  function InsertIfAbsent(s: SettingsMap, key: string, value: JsonValue): (r: SettingsMap)
    ensures r.Keys == s.Keys + {key}
    ensures forall k :: k in s ==> r[k] == s[k]
    ensures key !in s ==> r[key] == value
  {
    if key in s then s else s[key := value]
  }

  /** Migration 1.1.0 applied to the settings table: the portal switch, the
      portal's default inbox and the organisations switch, each inserted only
      if absent (internal/migrations/v1.1.0.go:12-16). */
  function MigrateV110(s: SettingsMap): (r: SettingsMap)
    ensures r.Keys == s.Keys + {PortalEnabledKey, PortalDefaultInboxKey, OrganizationsEnabledKey}
    ensures forall k :: k in s ==> r[k] == s[k]
    ensures PortalEnabledKey !in s ==> r[PortalEnabledKey] == JBool(false)
    ensures PortalDefaultInboxKey !in s ==> r[PortalDefaultInboxKey] == JNumber(0)
    ensures OrganizationsEnabledKey !in s ==> r[OrganizationsEnabledKey] == JBool(false)
  {
    KeysDistinct();
    var a := InsertIfAbsent(s, PortalEnabledKey, JBool(false));
    var b := InsertIfAbsent(a, PortalDefaultInboxKey, JNumber(0));
    InsertIfAbsent(b, OrganizationsEnabledKey, JBool(false))
  }

  lemma KeysDistinct()
    ensures PortalEnabledKey != PortalDefaultInboxKey
    ensures PortalEnabledKey != OrganizationsEnabledKey
    ensures PortalDefaultInboxKey != OrganizationsEnabledKey
  {
    assert PortalEnabledKey[11] != PortalDefaultInboxKey[11];
    assert PortalEnabledKey[4] != OrganizationsEnabledKey[4];
    assert PortalDefaultInboxKey[4] != OrganizationsEnabledKey[4];
  }

  /** Running the migration again changes nothing. */
  lemma MigrateV110Idempotent(s: SettingsMap)
    ensures MigrateV110(MigrateV110(s)) == MigrateV110(s)
  {
  }

  /** On a fresh installation the portal is off and has no default inbox. */
  lemma FreshInstallPortalOff()
    ensures !PortalEnabled(MigrateV110(map[]))
    ensures PortalDefaultInboxID(MigrateV110(map[])) == 0
    ensures MigrateV110(map[])[OrganizationsEnabledKey] == JBool(false)
  {
  }

  /** An installation that already turned the portal on keeps it on. */
  lemma ExistingSettingsSurvive(s: SettingsMap)
    requires PortalEnabled(s)
    ensures PortalEnabled(MigrateV110(s))
    ensures PortalDefaultInboxID(MigrateV110(s)) == (if PortalDefaultInboxKey in s then PortalDefaultInboxID(s) else 0)
  {
  }

  // ---------------------------------------------------------------------------
  // Version 1.2.0: the Admin role's new permission

  datatype Role = Role(name: string, permissions: seq<string>)

  const AdminRole: string := "Admin"
  const OrganizationsManage: string := "organizations:manage"

  /** Appends organizations:manage to the Admin role when it lacks it
      (internal/migrations/v1.2.0.go:59-63). */
  function GrantOrganizationsManage(roles: seq<Role>): (r: seq<Role>)
    ensures |r| == |roles|
    ensures forall i :: 0 <= i < |roles| ==> r[i].name == roles[i].name
    ensures forall i :: 0 <= i < |roles| && roles[i].name == AdminRole ==>
      OrganizationsManage in r[i].permissions
    ensures forall i :: 0 <= i < |roles| && (roles[i].name != AdminRole || OrganizationsManage in roles[i].permissions) ==>
      r[i] == roles[i]
    ensures forall i :: 0 <= i < |roles| && roles[i].name == AdminRole && OrganizationsManage !in roles[i].permissions ==>
      r[i].permissions == roles[i].permissions + [OrganizationsManage]
  {
    seq(|roles|, i requires 0 <= i < |roles| =>
      if roles[i].name == AdminRole && OrganizationsManage !in roles[i].permissions
      then roles[i].(permissions := roles[i].permissions + [OrganizationsManage])
      else roles[i])
  }

  /** Rerunning the grant changes nothing: a role that has the permission
      does not get it a second time. */
  lemma GrantIdempotent(roles: seq<Role>)
    ensures GrantOrganizationsManage(GrantOrganizationsManage(roles)) == GrantOrganizationsManage(roles)
  {
  }
}
