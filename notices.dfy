/** The transient notifications (toasts) the page shows after an action,
    one tag per title. */
module Notices {

  datatype Notice =
    | Silent                      // the action shows no notification
    | TaskCompleted               // "Task completed"
    | TaskMovedBack               // "Task moved back to open"
    | TaskDeleted                 // "Task deleted"
    | WelcomeAdmin                // "Welcome, Admin"
    | IncorrectPassword           // "Incorrect password" / "Please try again."
    | PleaseEnterCandidateName    // Continue on the name panel
    | PleaseEnterCustomCategory   // Continue on the category panel
    | EnterCandidateName          // createTask: no name
    | SelectCategory              // createTask: no category
    | PickOffDays                 // createTask: fewer than three off days
    | TaskCreated                 // "Task created"
}
