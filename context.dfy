/** The message sending of utils/context.py: `send_to` addresses a message to a user, and
    `send` moves content too long for one Discord message into a text attachment before
    handing the message on. What is modelled is the decision on what is handed on; the
    hand-over itself, the warning it logs and the UTF-8 encoding of the attachment are not. */
module Context {
  import opened Wrappers
  import opened Builtins

  /** A discord.File: an attachment's name and its text. */
  datatype File = File(filename: string, data: string)

  /** The user a message is addressed to; only their mention text matters here. */
  datatype User = User(mention: string)

  /** The arguments `send` hands on to discord: content, a single file, a list of files. */
  datatype Outgoing = Outgoing(content: Option<string>, file: Option<File>, files: Option<seq<File>>)

  /** The longest content sent as message text. */
  const MaxContentLength: nat := 1990

  /** The length of a file list that leaves no room for one more attachment. */
  const MaxFiles: nat := 10

  /** The attachment that carries content too long to send as text. */
  function Overflow(content: string): File {
    File("message.txt", content)
  }

  /** `content and len(content) > 1990`. */
  predicate TooBig(content: Option<string>) {
    content.Some? && content.value != "" && |content.value| > MaxContentLength
  }

  /** `send(content, file=file, files=files)`: what is handed on, or the InvalidArgument raised. */
  function Send(content: Option<string>, file: Option<File>, files: Option<seq<File>>): (r: Result<Outgoing, Error>)
    ensures r.Err? ==> r.error == InvalidArgument
  {
    if !TooBig(content) then Ok(Outgoing(content, file, files))
    else
      var attachment := Overflow(content.value);
      if file.Some? && files.Some? then Err(InvalidArgument)
      else if file.Some? then Ok(Outgoing(None, None, Some([attachment, file.value])))
      else if files.Some? then
        if |files.value| == MaxFiles then Err(InvalidArgument)
        else Ok(Outgoing(None, None, Some([attachment] + files.value)))
      else Ok(Outgoing(None, Some(attachment), None))
  }

  /** The attachments of a message, in order: the single file, then the list. */
  function Attachments(m: Outgoing): seq<File> {
    (if m.file.Some? then [m.file.value] else []) + (if m.files.Some? then m.files.value else [])
  }

  /** Content that fits (or is absent or empty) goes through with the files untouched. */
  lemma SendShort(content: Option<string>, file: Option<File>, files: Option<seq<File>>)
    requires content.None? || |content.value| <= MaxContentLength
    ensures Send(content, file, files) == Ok(Outgoing(content, file, files))
  {
  }

  /** `send` refuses a message exactly when the content is too long and either both a file
      and a list of files are given, or the list already holds ten files. */
  lemma SendFails(content: Option<string>, file: Option<File>, files: Option<seq<File>>)
    ensures Send(content, file, files).Err? <==>
              TooBig(content) && ((file.Some? && files.Some?) || (file.None? && files.Some? && |files.value| == MaxFiles))
  {
  }

  /** Content that is too long is no longer sent as text: it becomes the first attachment,
      followed by the attachments given, in their order. It is the single file when no file
      was given, and otherwise heads the list of files, with the single file slot left empty. */
  lemma SendRepacks(content: Option<string>, file: Option<File>, files: Option<seq<File>>)
    requires TooBig(content) && Send(content, file, files).Ok?
    ensures Send(content, file, files).value.content.None?
    ensures Attachments(Send(content, file, files).value) ==
              [File("message.txt", content.value)] + Attachments(Outgoing(content, file, files))
    ensures file.Some? ==>
              Send(content, file, files) == Ok(Outgoing(None, None, Some([File("message.txt", content.value), file.value])))
    ensures files.Some? ==>
              Send(content, file, files) == Ok(Outgoing(None, None, Some([File("message.txt", content.value)] + files.value)))
    ensures file.None? && files.None? ==>
              Send(content, file, files) == Ok(Outgoing(None, Some(File("message.txt", content.value)), None))
  {
    var m := Send(content, file, files).value;
    if file.None? && files.Some? {
      assert Attachments(Outgoing(content, file, files)) == files.value;
      assert Attachments(m) == [] + ([Overflow(content.value)] + files.value);
    }
  }

  /** The oversize path never turns a list of at most ten files into more than ten. */
  lemma SendKeepsFileLimit(content: Option<string>, file: Option<File>, files: Option<seq<File>>)
    requires files.Some? ==> |files.value| <= MaxFiles
    requires Send(content, file, files).Ok?
    ensures Send(content, file, files).value.files.Some? ==> |Send(content, file, files).value.files.value| <= MaxFiles
  {
  }

  /** The content `send_to(message, user)` sends: the user's mention, " > ", then the message. */
  function Addressed(message: string, user: Option<User>, author: User): (t: string)
    ensures user.Some? ==> t == user.value.mention + " > " + message
    ensures user.None? ==> t == author.mention + " > " + message
  {
    var to := if user.Some? then user.value else author;
    to.mention + " > " + message
  }

  /** `send_to(message, user, file=..., files=...)`: the addressed message goes through `send`. */
  function SendTo(message: string, user: Option<User>, author: User, file: Option<File>, files: Option<seq<File>>): Result<Outgoing, Error> {
    Send(Some(Addressed(message, user, author)), file, files)
  }

  /** The message always ends up after its address, as text when short and in the attachment
      otherwise: nothing of it is lost. */
  lemma SendToKeepsMessage(message: string, user: Option<User>, author: User, file: Option<File>, files: Option<seq<File>>)
    requires SendTo(message, user, author, file, files).Ok?
    ensures var m := SendTo(message, user, author, file, files).value;
            var t := Addressed(message, user, author);
            (m.content == Some(t) && |t| <= MaxContentLength) ||
            (m.content.None? && |t| > MaxContentLength && Attachments(m)[0] == File("message.txt", t))
    ensures var t := Addressed(message, user, author);
            t[|t| - |message|..] == message
  {
    var t := Addressed(message, user, author);
    if TooBig(Some(t)) {
      SendRepacks(Some(t), file, files);
    }
  }
}
