/** The Jamf records the connector reads (pkg/jamf/models.go) and the SDK values
    it produces. */
module Models {

  datatype BaseType = BaseType(id: int, name: string)

  /** The identity every Jamf record embeds, and the rest of the record. */
  datatype Record<B> = Record(id: int, name: string, info: B)

  datatype UserInfo = UserInfo(fullName: string, email: string, emailAddress: string, username: string, sites: seq<BaseType>)

  type User = Record<UserInfo>

  /** The privilege categories of a Custom account. */
  datatype Privileges = Privileges(
    jssObjects: seq<string>, jssSettings: seq<string>, jssActions: seq<string>, recon: seq<string>,
    casperAdmin: seq<string>, casperRemote: seq<string>, casperImaging: seq<string>)
  {
    predicate IsEmpty() {
      jssObjects == [] && jssSettings == [] && jssActions == [] && recon == []
      && casperAdmin == [] && casperRemote == [] && casperImaging == []
    }

    predicate Contains(privilege: string) {
      privilege in jssObjects || privilege in jssSettings || privilege in jssActions || privilege in recon
      || privilege in casperAdmin || privilege in casperRemote || privilege in casperImaging
    }
  }

  const NO_PRIVILEGES := Privileges([], [], [], [], [], [], [])

  datatype AccountInfo = AccountInfo(
    fullName: string, email: string, enabled: string, accessLevel: string,
    privilegeSet: string, privileges: Privileges, site: BaseType)

  type UserAccount = Record<AccountInfo>

  datatype GroupInfo = GroupInfo(privilegeSet: string, privileges: Privileges, site: BaseType)

  type Group = Record<GroupInfo>

  datatype UserGroupInfo = UserGroupInfo(site: BaseType)

  type UserGroup = Record<UserGroupInfo>

  const TYPE_USER := "user"
  const TYPE_GROUP := "group"
  const TYPE_USER_ACCOUNT := "userAccount"
  const TYPE_USER_GROUP := "userGroup"

  datatype ResourceId = ResourceId(resourceType: string, resource: string)
}
