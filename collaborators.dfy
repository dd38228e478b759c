/**
 * The user record and the calls the core makes to its collaborators: the user
 * store, the temporary-token store, the messaging, study and logging services.
 * The sweeps and the token endpoints are specified by the sequence of calls they
 * issue; what each call answers is an input of the model.
 */
module Collaborators {
  import opened Profiles
  import opened TempTokens

  /** The fields of a user record that the core reads or writes. */
  datatype User = User(
    id: string,
    accountID: string,
    preferredLanguage: string,
    accountConfirmedAt: int,
    lastTokenRefresh: int,
    markedForDeletion: int,
    profiles: seq<Profile>)

  /** The token descriptor handed to the study service. */
  datatype TokenInfos = TokenInfos(id: string, instanceID: string, profilID: string, otherProfileIDs: seq<string>)

  datatype LogEvent = TokenRefreshFailed | TokenRefreshSuccess | AccountDeletedAfterInactivity

  // Constant names shared with the other services of the platform.
  const PurposeInactiveUserNotification: string := "inactive-user-notification"
  const EmailTypeAccountInactivity: string := "account-inactivity"
  const EmailTypeAccountDeletedAfterInactivity: string := "account-deleted-after-inactivity"
  const AccountTypeEmail: string := "email"

  datatype Call =
    | GetUserByID(instanceID: string, userID: string)
    | UpdateMarkedForDeletionTime(instanceID: string, userID: string, delta: int, reset: bool)
    | UpdateUser(instanceID: string, user: User)
    | SaveLogEvent(instanceID: string, userID: string, event: LogEvent, msg: string)
    | FindInactiveUsers(instanceID: string, threshold: int)
    | FindUsersMarkedForDeletion(instanceID: string)
    | AddTempToken(record: TempToken)
    | QueueEmailTemplateForSending(instanceID: string, to: seq<string>, messageType: string,
                                   contentInfos: map<string, string>, preferredLanguage: string)
    | SendInstantEmail(instanceID: string, to: seq<string>, messageType: string,
                       preferredLanguage: string, useLowPrio: bool)
    | DeleteAllTempTokenForUser(instanceID: string, userID: string, purpose: string)
    | DeleteRenewTokensForUser(instanceID: string, userID: string)
    | DeleteUser(instanceID: string, userID: string)
    | ProfileDeleted(token: TokenInfos)
}
