/** The diary page (pages/Diary.jsx): the form check, the save action that prepends
    the stored entry, the delete action, and the loading effect. Whether a token is
    present and the server's replies are inputs of the actions. */
module Diary {
  import opened Common
  import opened Text
  import Server

  datatype Entry = Entry(id: int, date: string, note: string, tags: string)

  function EntryId(e: Entry): int { e.id }

  const DateMissing := "Preencha a data."
  const NoteTooShort := "Escreva pelo menos 3 caracteres na observação."
  const SignInToSave := "É preciso estar logado para salvar."
  const UnexpectedReply := "Resposta inesperada do servidor."
  const SaveError := "Erro ao salvar."
  const Saved := "✅ Entrada salva com sucesso!"
  const Deleted := "🗑️ Entrada excluída."
  const DeleteError := "Não foi possível excluir."
  const SignInToRead := "Você precisa entrar para ver o diário."
  const SessionExpired := "Sessão expirada. Faça login novamente."
  const LoadError := "Erro ao carregar entradas."

  /** The shortest note accepted, counted after trimming. */
  const MinNoteLength := 3

  /** `validate`: the date is checked first, then the trimmed note. */
  function Validate(date: string, note: string): (v: Option<string>)
    ensures v == None || v == Some(DateMissing) || v == Some(NoteTooShort)
  {
    if date == [] then Some(DateMissing)
    else if note == [] || JsLength(Trim(note)) < MinNoteLength then Some(NoteTooShort)
    else None
  }

  /** The body of `POST /diary`: the fields as typed; the note is checked after
      trimming but sent untrimmed. */
  datatype Request = Request(date: string, note: string, tags: string)

  /** The reply to `POST /diary`: the stored row, an empty body, or an error status
      with the server's message, if any. */
  datatype SaveReply = Stored(entry: Entry) | EmptyBody | SaveFailed(status: int, message: Option<string>)

  /** The reply to `GET /diary`. */
  datatype LoadReply = Rows(rows: seq<Entry>) | NotAList | LoadFailed(status: int)

  /** `err.response?.data?.message || "Erro ao salvar."` */
  function SaveFailureMessage(message: Option<string>): (m: string)
    ensures m != []
    ensures message.Some? && message.value != [] ==> m == message.value
  {
    if message.Some? && message.value != [] then message.value else SaveError
  }

  // ---------------------------------------------------------------- properties

  /** The form passes exactly when a date is given and the trimmed note has at least
      three code units; a note of white space only never passes. */
  lemma ValidateIff(date: string, note: string)
    ensures Validate(date, note) == None <==> date != [] && JsLength(Trim(note)) >= 3
    ensures Validate(date, note) == Some(DateMissing) <==> date == []
    ensures AllSpace(note) ==> Validate(date, note) != None
  {
    TrimEmptyIffAllSpace(note);
    if note == [] {
      assert Trim(note) == [];
    }
  }

  /** A request the page sends always passes the server's `!date || !note` guard,
      and the server stores the note exactly as typed, untrimmed. */
  lemma SentEntryIsStored(t: Server.Tables, who: Server.Claims, r: Request)
    requires Validate(r.date, r.note) == None
    ensures Server.AddDiary(t, who, Some(r.date), Some(r.note), Some(r.tags)).1.status == 200
    ensures Server.AddDiary(t, who, Some(r.date), Some(r.note), Some(r.tags)).0.diary ==
      t.diary + [Server.DiaryRow(t.nextDiary, who.id, r.date, r.note, Some(r.tags))]
  {
  }

  // ---------------------------------------------------------------- component

  /** The state of the Diary page. */
  class DiaryPage {
    var date: string
    var note: string
    var tags: string
    var entries: seq<Entry>
    var error: Option<string>
    var success: Option<string>

    /** `today` is the ISO date the form starts with. */
    constructor (today: string)
      ensures date == today && note == [] && tags == [] && entries == []
      ensures error == None && success == None
    {
      date, note, tags, entries := today, [], [], [];
      error, success := None, None;
    }

    /** The loading effect. */
    method Load(hasToken: bool, reply: LoadReply)
      modifies this
      ensures !hasToken ==> entries == old(entries) && error == Some(SignInToRead)
      ensures hasToken && reply.Rows? ==> entries == reply.rows && error == None
      ensures hasToken && reply.NotAList? ==> entries == [] && error == None
      ensures hasToken && reply.LoadFailed? ==>
        entries == old(entries) &&
        error == Some(if reply.status == 401 then SessionExpired else LoadError)
      ensures date == old(date) && note == old(note) && tags == old(tags) && success == old(success)
    {
      if !hasToken {
        error := Some(SignInToRead);
        return;
      }
      error := None;
      match reply
      case Rows(rows) => entries := rows;
      case NotAList => entries := [];
      case LoadFailed(status) =>
        error := Some(if status == 401 then SessionExpired else LoadError);
    }

    /** `addEntry`; `request` is the body of the `POST /diary` request, if one is made. */
    method AddEntry(hasToken: bool, reply: SaveReply) returns (request: Option<Request>)
      modifies this
      ensures request.Some? <==> Validate(old(date), old(note)) == None && hasToken
      ensures request.Some? ==> request.value == Request(old(date), old(note), old(tags))
      ensures Validate(old(date), old(note)).Some? ==>
        error == Validate(old(date), old(note)) && entries == old(entries)
      ensures Validate(old(date), old(note)) == None && !hasToken ==>
        error == Some(SignInToSave) && entries == old(entries)
      ensures request.Some? && reply.Stored? ==>
        entries == [reply.entry] + old(entries) && note == [] && tags == [] &&
        error == None && success == Some(Saved)
      ensures request.Some? && reply.EmptyBody? ==>
        entries == old(entries) && error == Some(UnexpectedReply)
      ensures request.Some? && reply.SaveFailed? ==>
        entries == old(entries) && error == Some(SaveFailureMessage(reply.message))
      ensures !(request.Some? && reply.Stored?) ==> note == old(note) && tags == old(tags) && success == None
      ensures date == old(date)
    {
      error, success := None, None;
      request := None;
      var v := Validate(date, note);
      assert v == Validate(old(date), old(note));
      if v.Some? {
        error := v;
        return;
      }
      if !hasToken {
        error := Some(SignInToSave);
        return;
      }
      request := Some(Request(date, note, tags));
      match reply
      case Stored(entry) =>
        entries := [entry] + entries;
        note, tags := [], [];
        success := Some(Saved);
      case EmptyBody =>
        error := Some(UnexpectedReply);
      case SaveFailed(_, message) =>
        error := Some(SaveFailureMessage(message));
    }

    /** `deleteEntry(id)`; nothing happens unless the user confirms. */
    method DeleteEntry(id: int, confirmed: bool, deleted: bool)
      modifies this
      ensures confirmed && deleted ==>
        entries == RemoveKey(old(entries), EntryId, id) && success == Some(Deleted) && error == old(error)
      ensures confirmed && !deleted ==>
        entries == old(entries) && error == Some(DeleteError) && success == old(success)
      ensures !confirmed ==> entries == old(entries) && error == old(error) && success == old(success)
      ensures date == old(date) && note == old(note) && tags == old(tags)
    {
      if !confirmed {
        return;
      }
      if deleted {
        entries := RemoveKey(entries, EntryId, id);
        success := Some(Deleted);
      } else {
        error := Some(DeleteError);
      }
    }
  }
}
