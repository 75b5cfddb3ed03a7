/** The answers of services the backend calls but that are not part of this model:
    a Cloudinary upload either throws an I/O error or returns a result map whose
    `secure_url` and `public_id` entries may be missing. */
module External {
  import opened Wrappers

  datatype UploadResult = Uploaded(secureUrl: Option<string>, publicId: Option<string>) | UploadFailed
}
