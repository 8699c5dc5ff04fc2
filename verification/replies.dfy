/**
 * What a request handler answers, in place of the HTTP response. Errors and
 * success notices are enumerated; each carries its status and its message
 * text as the handlers send them.
 */
module Replies {
  import opened Bots

  /** The error responses of the bot handlers of both variants. */
  datatype Failure =
    | BotNotFound
    | NotYourBot
    | NameRequired
    | TokenRequired
    | CodeRequired
    | NameEmpty
    | TokenInvalid
    | CodeEmpty
    | StopBeforeDeleting
    | AlreadyRunning
    | NotRunning
    | ProcessNotFound
    | EditWhileRunning
    | BadTokenFormat

  /** The HTTP status of an error response. */
  function Status(f: Failure): nat {
    match f
    case BotNotFound => 404
    case NotYourBot => 403
    case ProcessNotFound => 500
    case _ => 400
  }

  /** The `error` text of an error response. */
  function Message(f: Failure): string {
    match f
    case BotNotFound => "Bot not found"
    case NotYourBot => "Forbidden: Not your bot"
    case NameRequired => "Bot name is required"
    case TokenRequired => "Valid Discord bot token is required"
    case CodeRequired => "Bot code is required"
    case NameEmpty => "Bot name cannot be empty"
    case TokenInvalid => "Invalid Discord bot token"
    case CodeEmpty => "Bot code cannot be empty"
    case StopBeforeDeleting => "Stop the bot before deleting"
    case AlreadyRunning => "Bot is already running"
    case NotRunning => "Bot is not running"
    case ProcessNotFound => "Bot process not found"
    case EditWhileRunning => "Cannot edit running bot. Stop it first."
    case BadTokenFormat => "Invalid bot token format"
  }

  /** The `message` of a success response, if it has one. */
  datatype Notice = NoMessage | BotStarted | BotStopped | StillRunning | StopSignalSent

  function NoticeText(n: Notice): string {
    match n
    case NoMessage => ""
    case BotStarted => "Bot started"
    case BotStopped => "Bot stopped"
    case StillRunning => "Bot is already running"
    case StopSignalSent => "Stop signal sent to bot."
  }

  datatype Reply =
    /** 201: the bot with this id was created. */
    | Created(id: string)
    /** 200 with the edited record (all of it, or the fields the variant echoes). */
    | Saved(bot: Bot)
    /** 200 with `success: true` and this notice. */
    | Succeeded(notice: Notice)
    /** An error response. */
    | Refused(failure: Failure)
}
