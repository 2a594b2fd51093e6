# User creation in junit-tdd, modelled in Dafny

The modelled system is the user service of the `junit-tdd` teaching project.
`UserServiceImpl` receives a users repository and an email verification
service through its constructor. Its one operation, `createUser`, does four
things in order and stops at the first failure:

1. It refuses a first name that is null or that `String.trim()` reduces to
   nothing. Such a name throws `IllegalArgumentException("User's first name is empty")`.
2. It builds a `User` from the first name (untrimmed), last name, email and a
   freshly drawn UUID.
3. It calls `usersRepository.save`. A thrown `RuntimeException` becomes a
   `UserServiceException` with the cause's message. A `false` answer becomes
   `UserServiceException("Could not create user")`.
4. It calls `emailVerificationService.scheduleEmailConfirmation`. A throw there
   also becomes a `UserServiceException` with the cause's message. The save is
   not undone. Otherwise the user is returned.

Only `RuntimeException`s are caught. A `java.lang.Error` thrown by either
collaborator leaves `createUser` as it is, untranslated.

Files:

- `wrappers.dfy`, module `Wrappers`: `Option`, used for every Java reference that may be null.
- `java_string.dfy`, module `JavaString`: `String.trim()`. It removes every char
  whose code is at most U+0020 from both ends, which is not the same as
  removing Unicode white space.
- `user_service.dfy`, module `UserService`: the data (`User`, collaborator
  outcomes, `CreateResult`, the effect trace `Call`), the specification
  function `Create`, and the class `UserServiceImpl` with its constructor and
  the method `CreateUser`. The method is proved to give exactly the result and
  the effects of `Create`.
- `user_service_properties.dfy`, module `UserServiceProperties`: lemmas about
  `Create`, one per promise of `createUser`.

How the model represents the Java:

- Each collaborator is a datatype holding a total function from `User` to an
  outcome. `save` answers `SaveReturns(bool)`, `SaveThrows(message)` (a
  `RuntimeException`) or `SaveFails(error)` (a `java.lang.Error`), and
  `scheduleEmailConfirmation` answers `ScheduleReturns`, `ScheduleThrows(message)`
  or `ScheduleFails(error)`.
  An exception's message is an `Option<string>`, because `getMessage()` can be null.
- `UUID.randomUUID().toString()` is the parameter `randomId`. Drawing it is
  recorded in the effect trace as `NewId(randomId)`, so "no id is drawn" can be stated.
- `CreateUser` also returns a ghost trace of its effects, in order: `NewId`,
  `Save(u)`, `Schedule(u)`.
- The four ways `createUser` can end are `Created(user)`,
  `InvalidArgument(reason)`, `ServiceError(message)` and `Uncaught(error)`.

## Model

| member | source | states |
|---|---|---|
| JavaString.TrimStart | junit-tdd/src/main/java/service/Impl/UserServiceImpl.java:25 | the start index of `trim()`: every char before it is at most U+0020, and the char at it (if any) is above U+0020 |
| JavaString.TrimEnd | junit-tdd/src/main/java/service/Impl/UserServiceImpl.java:25 | the end index of `trim()`: every char from it on is at most U+0020, and the char just before it is kept unless the result is empty |
| JavaString.Trim | junit-tdd/src/main/java/service/Impl/UserServiceImpl.java:25 | `trim()` is empty exactly when every char of the string is at most U+0020; otherwise it starts and ends with a kept char |
| JavaString.TrimUnique | junit-tdd/src/main/java/service/Impl/UserServiceImpl.java:25 | any slice that has only trimmable chars around it and is empty or has kept chars at both ends equals `trim()`, so `trim()` is the substring Java defines |
| UserService.FirstNameMissing | junit-tdd/src/main/java/service/Impl/UserServiceImpl.java:25 | the guard `firstName == null \|\| firstName.trim().length() == 0` holds exactly when the name is null or every char in it is at most U+0020 |
| UserService.UserServiceImpl.constructor | junit-tdd/src/main/java/service/Impl/UserServiceImpl.java:17-20 | the service keeps the two injected collaborators |
| UserService.Create | junit-tdd/src/main/java/service/Impl/UserServiceImpl.java:23-44 | the outcome and the ordered effects of one call; it has no contract of its own, and the `UserServiceProperties` lemmas state its promises |
| UserService.UserServiceImpl.CreateUser | junit-tdd/src/main/java/service/Impl/UserServiceImpl.java:23-44 | the step-by-step method returns exactly the outcome, and has exactly the effects, of the specification `Create` |
| UserServiceProperties.BlankFirstNameRejected | junit-tdd/src/main/java/service/Impl/UserServiceImpl.java:25-27 | the result is an invalid-argument error exactly when the first name is null or only chars at most U+0020 (as tested with "" at UserServiceTest.java:63-77); the message is then "User's first name is empty", and no id is drawn and no collaborator called |
| UserServiceProperties.CreatedUserMatchesInputs | junit-tdd/src/main/java/service/Impl/UserServiceImpl.java:28-43 | a user is returned exactly when save answered true and scheduling returned; that user has the untrimmed first name, last name, email and drawn id, a non-blank first name, and is the very user saved and scheduled, once each (UserServiceTest.java:47-61, 105-113) |
| UserServiceProperties.SaveThrowsBecomesServiceError | junit-tdd/src/main/java/service/Impl/UserServiceImpl.java:30-34 | a throwing save gives a service error with the same, possibly null, message, and scheduling is never called (UserServiceTest.java:79-87) |
| UserServiceProperties.SaveFalseBecomesServiceError | junit-tdd/src/main/java/service/Impl/UserServiceImpl.java:36 | a save answering false gives the service error "Could not create user", and scheduling is never called |
| UserServiceProperties.ScheduleThrowsAfterSave | junit-tdd/src/main/java/service/Impl/UserServiceImpl.java:38-42 | after a successful save, a throwing scheduler gives a service error with its message; the user was saved once and scheduled once, and nothing undoes the save (UserServiceTest.java:89-103) |
| UserServiceProperties.ServiceErrorCauses | junit-tdd/src/main/java/service/Impl/UserServiceImpl.java:30-42 | every service error has one of exactly three causes: save threw with that message, save answered false with the fixed message, or scheduling threw with that message |
| UserServiceProperties.ErrorsEscapeUntranslated | junit-tdd/src/main/java/service/Impl/UserServiceImpl.java:30-42 | a `java.lang.Error` from save or from scheduling is not caught and ends the call unchanged, after the save in the scheduling case; nothing else ends the call that way |
| UserServiceProperties.CallsArePrefixOfFullTrace | junit-tdd/src/main/java/service/Impl/UserServiceImpl.java:28-39 | the effects of one call are always a prefix of "draw id, save u, schedule u" for the one user built from the inputs; nothing repeats, and scheduling happens only after a save that answered true |
| UserServiceProperties.PasswordsNeverRead | junit-tdd/src/main/java/service/Impl/UserServiceImpl.java:23-28 | `password` and `repeatPassword` change neither the result nor the effects |
| UserServiceProperties.SampleUserCreated | junit-tdd/src/test/java/service/UserServiceTest.java:37-60 | with the sample inputs, a repository that accepts and a scheduler that returns, the user comes back as given with the drawn id, saved and scheduled once |
| UserServiceProperties.SampleSaveThrowsWithoutMessage | junit-tdd/src/test/java/service/UserServiceTest.java:81-86 | a save that throws a bare `RuntimeException` (null message) gives a service error with no message, and the effects are exactly the id draw and the save of the sample user |

## Left out

- `UUID.randomUUID()`: a random generator. The id is a parameter, and uniqueness across calls, which holds only with high probability, is not stated. The UUID text format is not modelled either.
- The repository and email service implementations, and `model.User`: `model/User.java`, `data/UsersRepository.java`, `data/UsersRepositoryImpl.java` and `service/EmailVerificationService.java` are not part of this model. Only what their calls return or throw is modelled. `User`'s constructor is taken to store its four arguments as given.
- The exception classes (`UserServiceException`, `EmailNotificationServiceException`, `IllegalArgumentException`) are reduced to their messages. The Java exception hierarchy is not modelled beyond the one distinction the catches make: a `RuntimeException` is caught, a `java.lang.Error` is not.
- Null collaborators are not a separate case. With a valid first name, the `NullPointerException` from a null repository or email service is raised inside the `try` and caught as a `RuntimeException`, so `createUser` throws a `UserServiceException` with that exception's message. With a null email service the save has already happened. The model covers this as a collaborator that throws, for example `UsersRepository(u => SaveThrows(m))` where `m` is the `NullPointerException`'s message.
- User: `createUser` passes one mutable `User` object to `save` and to `scheduleEmailConfirmation` and returns that same object. The model's `User` is an immutable value, so the model assumes that neither collaborator changes the object. `CreatedUserMatchesInputs` rests on that assumption.
- Strings: a Dafny `string` is a sequence of Unicode scalar values, while a Java `String` is a sequence of UTF-16 code units that may contain unpaired surrogates. The model cannot represent such strings. The first-name guard would decide them the same way, because every surrogate is above U+0020.
- Side effects inside the collaborators (what `save` stores, whether an email is sent) are not modelled. Only the call to each collaborator, its argument and its order are recorded.
- Concurrent calls of `createUser`: the service shares no state between calls, so there is nothing to state.
- The Mockito wiring of the tests (`@InjectMocks`, `doCallRealMethod`) is not modelled. The tests are cited only as evidence for the properties above.
