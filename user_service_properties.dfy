/**
 * What `createUser` promises, stated over its specification `Create`: the
 * first-name guard, the user it returns, how each collaborator failure is
 * translated, which collaborators are called and in what order, and that the
 * two password arguments make no difference.
 */
module UserServiceProperties {
  import opened Wrappers
  import opened UserService

  /**
   * A null first name, or one made only of chars at most U+0020 (the empty
   * string included), and only such a name, is refused with
   * "User's first name is empty" before any id is drawn or collaborator called.
   */
  lemma BlankFirstNameRejected(repository: UsersRepository, mailer: EmailVerificationService,
                               firstName: Option<string>, lastName: Option<string>, email: Option<string>,
                               password: Option<string>, repeatPassword: Option<string>, randomId: string)
    ensures var run := Create(repository, mailer, firstName, lastName, email, password, repeatPassword, randomId);
            && (run.result.InvalidArgument? <==>
                  firstName.None? || forall i :: 0 <= i < |firstName.value| ==> firstName.value[i] <= ' ')
            && (run.result.InvalidArgument? ==> run == Run(InvalidArgument("User's first name is empty"), []))
  {
  }

  /**
   * A returned user carries the caller's first name untrimmed, the caller's
   * last name and email, and the drawn id; its first name is never blank.
   * A user is returned exactly when save answered true and scheduling returned,
   * and then the id was drawn, that user saved, and that same user scheduled.
   */
  lemma CreatedUserMatchesInputs(repository: UsersRepository, mailer: EmailVerificationService,
                                 firstName: Option<string>, lastName: Option<string>, email: Option<string>,
                                 password: Option<string>, repeatPassword: Option<string>, randomId: string)
    ensures var run := Create(repository, mailer, firstName, lastName, email, password, repeatPassword, randomId);
            && (run.result.Created? <==>
                  && !FirstNameMissing(firstName)
                  && repository.save(User(firstName.value, lastName, email, randomId)) == SaveReturns(true)
                  && mailer.scheduleEmailConfirmation(User(firstName.value, lastName, email, randomId)) == ScheduleReturns)
            && (run.result.Created? ==>
                  && firstName == Some(run.result.user.firstName)
                  && run.result.user.lastName == lastName
                  && run.result.user.email == email
                  && run.result.user.id == randomId
                  && (exists i :: 0 <= i < |run.result.user.firstName| && run.result.user.firstName[i] > ' ')
                  && run.calls == [NewId(randomId), Save(run.result.user), Schedule(run.result.user)])
  {
  }

  /**
   * When save throws, with a message or with none, the service error carries
   * that same message, and scheduling is never attempted.
   */
  lemma SaveThrowsBecomesServiceError(repository: UsersRepository, mailer: EmailVerificationService,
                                      firstName: string, lastName: Option<string>, email: Option<string>,
                                      password: Option<string>, repeatPassword: Option<string>, randomId: string,
                                      m: Option<string>)
    requires !FirstNameMissing(Some(firstName))
    requires repository.save(User(firstName, lastName, email, randomId)) == SaveThrows(m)
    ensures var run := Create(repository, mailer, Some(firstName), lastName, email, password, repeatPassword, randomId);
            && run.result == ServiceError(m)
            && run.calls == [NewId(randomId), Save(User(firstName, lastName, email, randomId))]
  {
  }

  /**
   * When save answers false, the service error says "Could not create user",
   * and scheduling is never attempted.
   */
  lemma SaveFalseBecomesServiceError(repository: UsersRepository, mailer: EmailVerificationService,
                                     firstName: string, lastName: Option<string>, email: Option<string>,
                                     password: Option<string>, repeatPassword: Option<string>, randomId: string)
    requires !FirstNameMissing(Some(firstName))
    requires repository.save(User(firstName, lastName, email, randomId)) == SaveReturns(false)
    ensures var run := Create(repository, mailer, Some(firstName), lastName, email, password, repeatPassword, randomId);
            && run.result == ServiceError(Some("Could not create user"))
            && run.calls == [NewId(randomId), Save(User(firstName, lastName, email, randomId))]
  {
  }

  /**
   * When save succeeds and scheduling throws, the service error carries the
   * scheduler's message; the user was saved exactly once and scheduled exactly
   * once, and no later effect undoes the save.
   */
  lemma ScheduleThrowsAfterSave(repository: UsersRepository, mailer: EmailVerificationService,
                                firstName: string, lastName: Option<string>, email: Option<string>,
                                password: Option<string>, repeatPassword: Option<string>, randomId: string,
                                m: Option<string>)
    requires !FirstNameMissing(Some(firstName))
    requires repository.save(User(firstName, lastName, email, randomId)) == SaveReturns(true)
    requires mailer.scheduleEmailConfirmation(User(firstName, lastName, email, randomId)) == ScheduleThrows(m)
    ensures var run := Create(repository, mailer, Some(firstName), lastName, email, password, repeatPassword, randomId);
            var u := User(firstName, lastName, email, randomId);
            && run.result == ServiceError(m)
            && run.calls == [NewId(randomId), Save(u), Schedule(u)]
  {
  }

  /**
   * Every service error comes from one of the three failure branches of
   * `createUser`: save threw with that message, save answered false, or save
   * answered true and scheduling threw with that message.
   */
  lemma ServiceErrorCauses(repository: UsersRepository, mailer: EmailVerificationService,
                           firstName: Option<string>, lastName: Option<string>, email: Option<string>,
                           password: Option<string>, repeatPassword: Option<string>, randomId: string)
    ensures var run := Create(repository, mailer, firstName, lastName, email, password, repeatPassword, randomId);
            run.result.ServiceError? ==>
              var u := User(firstName.value, lastName, email, randomId);
              && !FirstNameMissing(firstName)
              && (|| repository.save(u) == SaveThrows(run.result.message)
                  || (repository.save(u) == SaveReturns(false) && run.result.message == Some("Could not create user"))
                  || (repository.save(u) == SaveReturns(true)
                      && mailer.scheduleEmailConfirmation(u) == ScheduleThrows(run.result.message)))
  {
  }

  /**
   * A `java.lang.Error` from either collaborator is not caught: it ends the
   * call as it is, and one thrown by the scheduler leaves the save in place.
   * Only such an error ends the call as `Uncaught`.
   */
  lemma ErrorsEscapeUntranslated(repository: UsersRepository, mailer: EmailVerificationService,
                                 firstName: Option<string>, lastName: Option<string>, email: Option<string>,
                                 password: Option<string>, repeatPassword: Option<string>, randomId: string)
    ensures var run := Create(repository, mailer, firstName, lastName, email, password, repeatPassword, randomId);
            var u := User(firstName.GetOr([]), lastName, email, randomId);
            && (run.result.Uncaught? ==> !FirstNameMissing(firstName))
            && (!FirstNameMissing(firstName) && repository.save(u).SaveFails? ==>
                  run == Run(Uncaught(repository.save(u).saveError), [NewId(randomId), Save(u)]))
            && (!FirstNameMissing(firstName) && repository.save(u) == SaveReturns(true)
                && mailer.scheduleEmailConfirmation(u).ScheduleFails? ==>
                  run == Run(Uncaught(mailer.scheduleEmailConfirmation(u).scheduleError), FullTrace(u)))
            && (run.result.Uncaught? ==>
                  repository.save(u).SaveFails?
                  || (repository.save(u) == SaveReturns(true) && mailer.scheduleEmailConfirmation(u).ScheduleFails?))
  {
  }

  /**
   * Whatever the collaborators do, the effects of one call are a prefix of
   * "draw id, save u, schedule u" for the one user u built from the inputs:
   * nothing happens twice, save comes before schedule, and schedule follows
   * only a save that answered true.
   */
  lemma CallsArePrefixOfFullTrace(repository: UsersRepository, mailer: EmailVerificationService,
                                  firstName: Option<string>, lastName: Option<string>, email: Option<string>,
                                  password: Option<string>, repeatPassword: Option<string>, randomId: string)
    ensures var run := Create(repository, mailer, firstName, lastName, email, password, repeatPassword, randomId);
            var u := User(firstName.GetOr([]), lastName, email, randomId);
            && run.calls <= FullTrace(u)
            && (forall i, j :: 0 <= i < j < |run.calls| ==> run.calls[i] != run.calls[j])
            && (Schedule(u) in run.calls ==> Save(u) in run.calls && repository.save(u) == SaveReturns(true))
  {
  }

  /** `password` and `repeatPassword` are accepted but never read: they change neither result nor effects. */
  lemma PasswordsNeverRead(repository: UsersRepository, mailer: EmailVerificationService,
                           firstName: Option<string>, lastName: Option<string>, email: Option<string>,
                           password: Option<string>, repeatPassword: Option<string>,
                           password': Option<string>, repeatPassword': Option<string>, randomId: string)
    ensures Create(repository, mailer, firstName, lastName, email, password, repeatPassword, randomId)
         == Create(repository, mailer, firstName, lastName, email, password', repeatPassword', randomId)
  {
  }

  /**
   * The happy path with the sample data: a repository that accepts every user
   * and a scheduler that always returns give back a user with the same first
   * name, last name and email and the drawn id, saved and scheduled once each.
   */
  lemma SampleUserCreated(randomId: string)
    ensures var run := Create(UsersRepository(u => SaveReturns(true)), EmailVerificationService(u => ScheduleReturns),
                              Some("Bruno"), Some("Affeldt"), Some("email@email.com"),
                              Some("1234560"), Some("1234560"), randomId);
            var u := User("Bruno", Some("Affeldt"), Some("email@email.com"), randomId);
            run == Run(Created(u), [NewId(randomId), Save(u), Schedule(u)])
  {
  }

  /** A save that throws a bare `RuntimeException` (no message) gives a service error with no message. */
  lemma SampleSaveThrowsWithoutMessage(mailer: EmailVerificationService, randomId: string)
    ensures var run := Create(UsersRepository(u => SaveThrows(None)), mailer,
                              Some("Bruno"), Some("Affeldt"), Some("email@email.com"),
                              Some("1234560"), Some("1234560"), randomId);
            && run.result == ServiceError(None)
            && run.calls == [NewId(randomId), Save(User("Bruno", Some("Affeldt"), Some("email@email.com"), randomId))]
  {
  }
}
