/** The two folders the server writes: `uploads` (raw uploads, saved as sent)
    and `static` (colorized and filtered artifacts), each an abstract map from
    file name to content. A later write under a name replaces the earlier one. */
module Store {
  import opened Imaging
  import opened Naming

  /** What an entry of a folder holds: a picture the image loader can decode, or
      anything else (a file of another kind, a subfolder). */
  datatype Payload = Picture(img: Image) | Unreadable

  datatype Folders = Folders(uploads: map<string, Payload>, processed: map<string, Payload>)

  /** Loading a folder entry as an image (load_img on an upload, cv2.imread on an
      artifact): None when the entry is absent or does not decode. */
  function Load(folder: map<string, Payload>, name: string): (r: Option<Image>)
    ensures r.Some? <==> name in folder && folder[name].Picture?
    ensures r.Some? ==> r.value == folder[name].img
  {
    if name in folder && folder[name].Picture? then Some(folder[name].img) else None
  }

  /** The names "", "." and ".." denote the folder itself or its parent: whether or
      not the folder lists them, they never decode as a picture. */
  predicate FoldersDoNotDecode(processed: map<string, Payload>) {
    forall name :: name in processed && IsFolderName(name) ==> processed[name].Unreadable?
  }

  class ArtifactStore {
    var uploads: map<string, Payload>
    var processed: map<string, Payload>

    function State(): Folders
      reads this
    {
      Folders(uploads, processed)
    }

    predicate Valid()
      reads this
    {
      FoldersDoNotDecode(processed)
    }

    /** The two folders as the server finds them at start-up: os.makedirs with
        exist_ok keeps whatever files they already hold. */
    constructor (existingUploads: map<string, Payload>, existingProcessed: map<string, Payload>)
      requires FoldersDoNotDecode(existingProcessed)
      ensures Valid() && State() == Folders(existingUploads, existingProcessed)
    {
      uploads := existingUploads;
      processed := existingProcessed;
    }

    /** file.save into the upload folder. */
    method SaveUpload(name: string, payload: Payload)
      modifies this
      ensures uploads == old(uploads)[name := payload]
      ensures processed == old(processed)
    {
      uploads := uploads[name := payload];
    }

    /** Decode an uploaded file. */
    method LoadUpload(name: string) returns (img: Option<Image>)
      ensures img == Load(uploads, name)
    {
      if name in uploads && uploads[name].Picture? {
        img := Some(uploads[name].img);
      } else {
        img := None;
      }
    }

    /** plt.imsave or cv2.imwrite into the processed folder. `accepted` is the file
        system's answer: when it refuses the write, the folder is left as it was. */
    method Write(name: string, img: Image, accepted: bool)
      modifies this
      ensures processed == if accepted then old(processed)[name := Picture(img)] else old(processed)
      ensures uploads == old(uploads)
      ensures old(Valid()) && !IsFolderName(name) ==> Valid()
    {
      if accepted {
        processed := processed[name := Picture(img)];
      }
    }

    /** os.path.exists on a name of the processed folder: true for any entry,
        whether or not it decodes. */
    method Exists(name: string) returns (present: bool)
      ensures present <==> name in processed
    {
      present := name in processed;
    }

    /** cv2.imread on a name of the processed folder. */
    method Read(name: string) returns (img: Option<Image>)
      ensures img == Load(processed, name)
    {
      if name in processed && processed[name].Picture? {
        img := Some(processed[name].img);
      } else {
        img := None;
      }
    }
  }
}
