/** The `InfoBar` pop-ups the dialogs show, reduced to their level, title
    and content. Position, duration and styling are not modelled. */
module Notices {
  datatype Level = Success | Info | Warning | Error

  datatype Notice = Notice(level: Level, title: string, content: string)
}
