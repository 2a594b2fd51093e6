/**
 * `UserServiceImpl`: creates a user after checking its first name, saves it
 * through the users repository and then asks the email verification service to
 * schedule a confirmation email. Every collaborator failure is re-raised as a
 * user-service error carrying the cause's message; nothing is rolled back.
 */
module UserService {
  import opened Wrappers
  import JavaString

  /** Message of the `IllegalArgumentException` thrown for a missing first name. */
  const FirstNameEmpty: string := "User's first name is empty"

  /** Message of the `UserServiceException` thrown when `save` returns false. */
  const CouldNotCreateUser: string := "Could not create user"

  /**
   * A user as built by `createUser`. The first name is the caller's string as
   * given (untrimmed, and never null once the check has passed); last name and
   * email may be null. `id` is the text of a random UUID.
   */
  datatype User = User(firstName: string, lastName: Option<string>, email: Option<string>, id: string)

  /**
   * What one call of `UsersRepository.save` did: returned a flag, threw a
   * `RuntimeException` with a (possibly null) message, or threw a
   * `java.lang.Error`, which is unchecked too but is not a `RuntimeException`.
   */
  datatype SaveOutcome =
    | SaveReturns(created: bool)
    | SaveThrows(saveMessage: Option<string>)
    | SaveFails(saveError: Option<string>)

  /** What one call of `EmailVerificationService.scheduleEmailConfirmation` did, in the same three kinds. */
  datatype ScheduleOutcome =
    | ScheduleReturns
    | ScheduleThrows(scheduleMessage: Option<string>)
    | ScheduleFails(scheduleError: Option<string>)

  /** The users repository, seen only through how its `save` answers each user. */
  datatype UsersRepository = UsersRepository(save: User -> SaveOutcome)

  /** The email verification service, seen only through how its one operation answers each user. */
  datatype EmailVerificationService = EmailVerificationService(scheduleEmailConfirmation: User -> ScheduleOutcome)

  /**
   * How `createUser` ends: it returns the user, throws `IllegalArgumentException`,
   * throws `UserServiceException` (whose message may be null), or lets a
   * collaborator's `java.lang.Error` pass through untouched.
   */
  datatype CreateResult =
    | Created(user: User)
    | InvalidArgument(reason: string)
    | ServiceError(message: Option<string>)
    | Uncaught(error: Option<string>)

  /** One effect of `createUser` outside the service: drawing a UUID, or calling a collaborator. */
  datatype Call = NewId(id: string) | Save(user: User) | Schedule(user: User)

  /** The outcome of one `createUser` call together with the effects it had, in order. */
  datatype Run = Run(result: CreateResult, calls: seq<Call>)

  /**
   * The first-name guard: true when the name is null or `trim()` leaves
   * nothing of it, that is, when every char in it is at most U+0020.
   */
  predicate FirstNameMissing(firstName: Option<string>)
    ensures FirstNameMissing(firstName) <==>
      firstName.None? || forall i :: 0 <= i < |firstName.value| ==> firstName.value[i] <= ' '
  {
    firstName.None? || |JavaString.Trim(firstName.value)| == 0
  }

  /** The longest effect sequence `createUser` can have for user `u`: id drawn, `u` saved, `u` scheduled. */
  function FullTrace(u: User): seq<Call>
  {
    [NewId(u.id), Save(u), Schedule(u)]
  }

  /**
   * The specification of `createUser`, step by step: first-name guard, user
   * built with the drawn id, save (throw or false ends it), schedule (throw
   * ends it), user returned. Only `RuntimeException`s are caught and
   * translated; an `Error` ends the call as it is. `password` and `repeatPassword` are taken and
   * never read, as in the source.
   */
  function Create(repository: UsersRepository, mailer: EmailVerificationService,
                  firstName: Option<string>, lastName: Option<string>, email: Option<string>,
                  password: Option<string>, repeatPassword: Option<string>, randomId: string): Run
  {
    if FirstNameMissing(firstName) then
      Run(InvalidArgument(FirstNameEmpty), [])
    else
      var user := User(firstName.value, lastName, email, randomId);
      var saved := [NewId(randomId), Save(user)];
      match repository.save(user)
      case SaveThrows(m) => Run(ServiceError(m), saved)
      case SaveFails(e) => Run(Uncaught(e), saved)
      case SaveReturns(false) => Run(ServiceError(Some(CouldNotCreateUser)), saved)
      case SaveReturns(true) =>
        match mailer.scheduleEmailConfirmation(user)
        case ScheduleThrows(m) => Run(ServiceError(m), saved + [Schedule(user)])
        case ScheduleFails(e) => Run(Uncaught(e), saved + [Schedule(user)])
        case ScheduleReturns => Run(Created(user), saved + [Schedule(user)])
  }

  /** The service object: its two collaborators are injected once and never reassigned. */
  class UserServiceImpl {
    const usersRepository: UsersRepository
    const emailVerificationService: EmailVerificationService

    constructor (usersRepository: UsersRepository, emailVerificationService: EmailVerificationService)
      ensures this.usersRepository == usersRepository
      ensures this.emailVerificationService == emailVerificationService
    {
      this.usersRepository := usersRepository;
      this.emailVerificationService := emailVerificationService;
    }

    /**
     * `createUser`. `randomId` is the text `UUID.randomUUID()` would give when
     * it is drawn; `calls` lists the effects the call had, in order. The result
     * and the effects are exactly those of the specification `Create`.
     */
    method CreateUser(firstName: Option<string>, lastName: Option<string>, email: Option<string>,
                      password: Option<string>, repeatPassword: Option<string>, randomId: string)
      returns (r: CreateResult, ghost calls: seq<Call>)
      ensures r == Create(usersRepository, emailVerificationService,
                          firstName, lastName, email, password, repeatPassword, randomId).result
      ensures calls == Create(usersRepository, emailVerificationService,
                              firstName, lastName, email, password, repeatPassword, randomId).calls
    {
      calls := [];
      if firstName.None? || |JavaString.Trim(firstName.value)| == 0 {
        r := InvalidArgument(FirstNameEmpty);
        return;
      }
      calls := calls + [NewId(randomId)];
      var user := User(firstName.value, lastName, email, randomId);
      var isUserCreated := false;
      var saveOutcome := usersRepository.save(user);
      calls := calls + [Save(user)];
      match saveOutcome {
        case SaveThrows(m) =>
          r := ServiceError(m);
          return;
        case SaveFails(e) =>
          r := Uncaught(e);
          return;
        case SaveReturns(b) =>
          isUserCreated := b;
      }
      if !isUserCreated {
        r := ServiceError(Some(CouldNotCreateUser));
        return;
      }
      var scheduleOutcome := emailVerificationService.scheduleEmailConfirmation(user);
      calls := calls + [Schedule(user)];
      match scheduleOutcome {
        case ScheduleThrows(m) =>
          r := ServiceError(m);
          return;
        case ScheduleFails(e) =>
          r := Uncaught(e);
          return;
        case ScheduleReturns =>
      }
      r := Created(user);
    }
  }
}
