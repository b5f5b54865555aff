/**
 The values that flow through the token hook: what a request asks for, what the
 outside world answers, and what ProcessRequest returns.
 */
module HookTypes {
  import opened Base64

  datatype Group = Group(id: GoString, name: string)

  /** Outcome of fetching the user's groups from every configured client. */
  datatype Fetch = Fetched(groups: seq<Group>) | FetchFailed

  /** Outcome of AuthorizeRequest: allowed, denied, or the check itself failed. */
  datatype Decision = Allowed | Denied | CheckFailed

  /** Outcome of ValidateMembership: nil, ErrNotMember, or any other error. */
  datatype Validation = Member | NotMember | LookupFailed

  /** One hook request, together with the answers its environment would give. */
  datatype Input = Input(
    tenant: string,
    fetch: Fetch,
    authorize: seq<Group> -> Decision,
    validate: Validation
  )

  /** Everything ProcessRequest can return. */
  datatype Outcome =
    | Success(groups: seq<Group>, tenant: string)
    | TooBusy
    | FetchError
    | AuthorizeError
    | AccessDenied
    | NotATenantMember
    | TenantInternal

  /**
   The sequential reading of the hook: fetch, then authorize, then validate the
   tenant, each step only if the previous one went well. No pool, no channels.
   */
  function Sequential(input: Input): Outcome {
    match input.fetch
    case FetchFailed => FetchError
    case Fetched(groups) =>
      match input.authorize(groups)
      case CheckFailed => AuthorizeError
      case Denied => AccessDenied
      case Allowed =>
        if input.tenant == "" then Success(groups, "")
        else match input.validate
          case Member => Success(groups, input.tenant)
          case NotMember => NotATenantMember
          case LookupFailed => TenantInternal
  }
}
