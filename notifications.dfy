/** The notification box of the page (`showNotification` in static/script.js). */
module Notifications {
  /** What `showNotification(title, message, isSuccess)` shows: the title, the message, and
      whether the box is styled as a success or as an error. */
  datatype Notification = Notification(title: string, message: string, success: bool)
}
